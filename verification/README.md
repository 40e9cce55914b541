# A model of cDCL in Dafny

cDCL is a C++ library that talks to Newton handhelds. This project models the parts of it that rest on invariants of
bytes, words and interleavings, and proves what the code is for.

- **Packages** (`MemStream`, `RelocTable`, `PkgPart`, `PackageImage`, `PackageWriter`, `PackageTable`, `PackageParse`,
  `PackageAccepted`, `PackageReader`, `PackageReadBack`, `PackageRoundTrip`, `PackageKnownImage`, `PackageFixedPoint`,
  `PartMove`): a random-access stream, parts that are re-encoded when they move, the writer that reserves room for a
  relocation table and seeks back to emit it, the reader, which bytes it accepts, and what one makes of the other's bytes.
- **MNP** (`Crc16`, `MnpFrame`, `MnpLine`, `MnpEndpoint`, `MnpKnownFrames`, `MnpPipe`, `MnpSystem`, `MnpRuns`): the CRC, byte
  stuffing, the pipe with its buffers and acknowledgements, two of them over two lines, and their operations as runs of the two.
- **DES** (`DesBits`, `DesTables`, `DesCipher`, `DesKeys`, `UDes`, `DesWords`, `DesKnownAnswer`, `DesPassword`): the
  cipher on bits, the key schedule and its Newton variant, the code on 32-bit words that builds both bit by bit, known
  answers, and keys made of passwords; the Newton variant of these gives up their odd parity (`NewtonPasswordOddIff`). The
  numbering of bits and the names of the tables are those of FIPS PUB 46-2.
- **64-bit arithmetic** (`Modular`, `TUInt64`): multiplication and exponentiation modulo a word, and the integer of two
  halves.
- **Events and links** (`EventQueue`, `EventWait`, `Link`): the intrusive list, its posters and waiter, and the loop of a
  link.
- **Buffers** (`CircleBuffer`, `BufferedPipe`): the ring buffer and the pipe that buffers over one that may fail.

Objects the original updates in place are classes whose methods are proved against functions on values; the theorems are
lemmas about those functions. Exceptions are values of `Result`, or of `Call` in the link. Bytes and words are subset
types of the integers in the package, and bit vectors in the CRC and in DES.

Where the code does not do what it is meant to do, the code is kept, the exact condition is proved, and an input that
fails is given:

- the size declared of a package (`DeclaredSizeIff`, `FlaggedDeclaresTooLittle`);
- moving a package that was read (`RereadMovedRightlyIff`, `SecondPartMovedWrongly`);
- addresses the table cannot hold (`AddressesKeptIff`, `AddressLost`, `RelocationLost`);
- the relocations of a part in a table out of order (`SliceIsWithinIff`, `OutOfOrder`);
- the infos behind extra info (`InfoOffsetIff`, `RereadKeepsInfosIff`, `ExtraFirstMisread`);
- a power with exponent 0 modulo 1 (`ExpModulo`, `NothingRaised`);
- subtracting a word (`MinusWord`, `BorrowedWrongly`), adding a number to itself (`Plus`, `DoubledWrongly`), detecting a
  carry (`AddWithCarry`, `CarriedWrongly`);
- the count a failed buffered write reports (`BufferedPipe.Write`, `ReportedWrongly`).

## Model

| member | source | states |
|---|---|---|
| `PackageRoundTrip.RoundTrip` | DCL/Package/TDCLPackage.cpp:223-466 | What the writer wrote for a load address, wherever it is in a stream and whatever surrounds it, the reader reads back at that address as the same package: id, flags as written, version, date, strings, and for each part its type, flags, placed data and own relocations; its info is what the directory holds at the offset the writer gave, and all that is left behind the last info, the padding too, is extra info of the last part, or of a package without parts; the reader stops at the end of the package |
| `PackageRoundTrip.RereadKeepsInfosIff` | DCL/Package/TDCLPackage.cpp:337-363 | The infos and extra infos come back as written, with the padding behind the last, if and only if there is extra info only at the end of the directory |
| `PackageRoundTrip.ExtraFirstMisread` | DCL/Package/TDCLPackage.cpp:337-363 | Of a package with a byte of extra info before the info, of a byte, of its part, the offset written is 4 where the info is at 5, and the extra byte is read back as the info |
| `PackageKnownImage.SmallImage` | DCL/Package/TDCLPackage.cpp:315-466 | A package for NewtonOS 1.x with one part, byte for byte: the signature package0, the fields of the header and of the entry in order, two-byte characters, an info, the padding of directory and part |
| `PackageKnownImage.SmallReadBack` | DCL/Package/TDCLPackage.cpp:604-985 | The reader makes of those bytes that package, at any address |
| `PackageKnownImage.LargeImage` | DCL/Package/TDCLPackage.cpp:315-523 | A package with two parts and four relocations in two pages, byte for byte, at the load address 0x1000: package1 and the flag, the table in the space of its estimates, the words moved by their part's address |
| `PackageKnownImage.LargeReadBack` | DCL/Package/TDCLPackage.cpp:604-985 | The reader makes of those 1232 bytes that package: each part with its own relocations and the bytes it has there |
| `PackageKnownImage.SignatureIff` | DCL/Package/TDCLPackage.cpp:306-324 | The image begins with package0 exactly when the package is for NewtonOS 1.x and the relocation flag did not have to be added; the flags in it are those of the package, with that flag added when there are relocations |
| `PackageAccepted.PackageAtIff` | DCL/Package/TDCLPackage.cpp:604-985 | Of any stream the reader takes a package if and only if signature, even string lengths, directory, strings with their terminators, infos, table and the data of every part are there; every field, string, info and part data is what stands at its place by offset |
| `PackageAccepted.HeaderAtIff` | DCL/Package/TDCLPackage.cpp:612-656 | What is thrown for a header: end of file, unknown signature or odd strings, each exactly when, in that order |
| `PackageAccepted.EntriesAtIs` | DCL/Package/TDCLPackage.cpp:679-692 | The k-th entry is what stands 32 k bytes on, its fields at their offsets, its second size passed over |
| `PackageAccepted.DirectoryInIff` | DCL/Package/TDCLPackage.cpp:711-813 | The directory data is accepted exactly when the strings lie in it and end with a zero character, there is a name, and the infos and what is between them lie in it |
| `PackageAccepted.RelocationsAtIff` | DCL/Package/TDCLPackage.cpp:825-874 | A table is read exactly when its header, its sets and the size it declares are there |
| `PackageAccepted.PartRelocations` | DCL/Package/TDCLPackage.cpp:924-966 | A part that is not a NOS part gets the addresses inside it, from its start on, with the base of the table; if the table groups them |
| `PackageAccepted.SliceIsWithinIff` | DCL/Package/TDCLPackage.cpp:924-937 | The scan gives a part its own addresses if and only if, from the first at or behind its start on, those inside it come before all others |
| `PackageAccepted.AscendingGrouped` | DCL/Package/TDCLPackage.cpp:924-937 | In a table in ascending order they do |
| `PackageAccepted.OutOfOrder` | DCL/Package/TDCLPackage.cpp:924-937 | Of the addresses 200, 120 the part from 100 to 140 gets 200 |
| `PackageFixedPoint.WriteThenRead` | DCL/Package/TDCLPackage.cpp:604-985 | On a stream with anything on it: the writer does not fail, changes only its own bytes, and reading back from where it began gives that package and ends where it ended; what it wrote is the size it added up, except for a flagged package without relocations |
| `PackageFixedPoint.WritingAgain` | DCL/Package/TDCLPackage.cpp:254-303 | Writing what was read back, at the same load address, writes the identical bytes |
| `PackageFixedPoint.RereadAgain` | DCL/Package/TDCLPackage.cpp:794-812 | A second write and read gives the package of the first |
| `PackageFixedPoint.NoneEncodedAgain` | DCL/Package/TDCLPkgPart.cpp:105-138 | A part that was read back is already encoded for where it is going: placing it changes nothing |
| `PackageTable.WrittenIsImage` | DCL/Package/TDCLPackage.cpp:468-523 | Emitting the table by seeking back over the blank area writes exactly the image of the package: directory, filled relocation area, bodies; nothing else on the stream changes |
| `PackageTable.TableFits` | DCL/Package/TDCLPackage.cpp:275-288 | Space bound: the sets, each padded, fit the space reserved from the page estimates times the maximum set size, and no set has more than 256 offsets |
| `PackageTable.AllRelocationsListed` | DCL/Package/TDCLPackage.cpp:443-451 | The addresses collected over the parts are ascending, representable, as many as counted, and make no more sets than the estimates add up to |
| `PackageTable.DeclaredSizeIff` | DCL/Package/TDCLPackage.cpp:285-290 | The 32-bit size the header declares is the size written if and only if the package is below 4 GiB and is not one without relocations whose relocation flag was set |
| `PackageTable.SizeCountedIff` | DCL/Package/TDCLPackage.cpp:285-290 | The size added up is the size written if and only if the flag was not set on a package without relocations, and never more |
| `PackageTable.FlaggedDeclaresTooLittle` | DCL/Package/TDCLPackage.cpp:405-423 | A flagged package without parts declares 56 bytes and writes 76 |
| `RelocTable.PagesWithinEstimate` | DCL/Package/TDCLPkgRelocatablePart.cpp:128-143 | Wherever a part lands, its ascending relocations fall in no more distinct pages than the estimate |
| `RelocTable.SetCountBound` | DCL/Package/TDCLPackage.cpp:481-518 | Ascending addresses make at most one set a page spanned |
| `RelocTable.SetMaxIs` | DCL/Package/TDCLPackage.cpp:424-430 | The size reserved for a set is that of a set with all relocations of the package, or with 256 |
| `RelocTable.EstimateReached` | DCL/Package/TDCLPkgRelocatablePart.cpp:128-143 | The estimate is reached: relocations at 1020 and 1024 make two sets |
| `RelocTable.SetCountAppend` | DCL/Package/TDCLPackage.cpp:489-513 | The sets of two lists together are at most those of one and those of the other |
| `RelocTable.SetsThenAddresses` | DCL/Package/TDCLPackage.cpp:890-900 | Splitting addresses into sets and putting them together keeps all but the bits the two fields cannot hold |
| `RelocTable.AddressesKeptIff` | DCL/Package/TDCLPackage.cpp:485-492 | A list of addresses survives the table if and only if each is a multiple of four below 2^26 |
| `RelocTable.AddressLost` | DCL/Package/TDCLPackage.cpp:485-492 | 64 MiB + 8 comes back as 8 |
| `PackageTable.RelocationLost` | DCL/Package/TDCLPackage.cpp:485-492 | The one relocation, at 2, of a package of one part comes back at 0: its address is no multiple of four |
| `RelocTable.SetsAreSmall` | DCL/Package/TDCLPackage.cpp:486-487 | No set of ascending addresses has more than 256 offsets, or more than there are addresses |
| `RelocTable.TableSizeBound` | DCL/Package/TDCLPackage.cpp:424-430 | Sets of at most a size take at most their number times that size |
| `RelocTable.EmitTable` | DCL/Package/TDCLPackage.cpp:469-523 | The table, with its back-patched offset counts and number of sets, is written over what was there, and the cursor returns to the end |
| `RelocTable.EmitSets` | DCL/Package/TDCLPackage.cpp:474-518 | The loop over the addresses writes the sets it forms, padded between them, and counts them |
| `RelocTable.SetBytesReadBack` | DCL/Package/TDCLPackage.cpp:850-870 | A set that was written is read back, its padding skipped |
| `RelocTable.SetsReadBack` | DCL/Package/TDCLPackage.cpp:850-870 | Reading as many sets as were written gives exactly those sets and stops after them |
| `RelocTable.ReadSets` | DCL/Package/TDCLPackage.cpp:850-870 | The reading loop does what the specification reads, or fails with the same exception |
| `PackageReadBack.RelocationsReadBack` | DCL/Package/TDCLPackage.cpp:825-874 | The relocation area is read back: declared size, base address 0, the sets, and the rest skipped |
| `PackageReadBack.SliceForPart` | DCL/Package/TDCLPackage.cpp:924-936 | The scan gives each part exactly the addresses made of its own relocations |
| `PackageReadBack.PartReadBack` | DCL/Package/TDCLPackage.cpp:913-966 | A part is rebuilt from its slice of the data and of the relocations |
| `PackageReadBack.EntriesReadBack` | DCL/Package/TDCLPackage.cpp:679-692 | The directory entries are read back |
| `PackageReadBack.HeaderReadBack` | DCL/Package/TDCLPackage.cpp:612-656 | The fixed part of the directory is read back |
| `PackageReadBack.DirectoryReadBack` | DCL/Package/TDCLPackage.cpp:711-813 | The strings, the infos at the offsets of the writer, and the padding as extra info are found in the directory data |
| `PackageReadBack.InfoOffsetIff` | DCL/Package/TDCLPackage.cpp:337-363 | The info of a part is where its entry says if and only if no extra info comes before it and the offset fits its field |
| `PackageReadBack.EmptyTableReadBack` | DCL/Package/TDCLPackage.cpp:826-874 | A relocation header that declares no size is taken whole, and the reader goes on behind it |
| `PackageRoundTrip.AddressesReadBack` | DCL/Package/TDCLPackage.cpp:884-901 | The reader gets the package's own addresses back |
| `PackageWriter.Package.WriteToStream` | DCL/Package/TDCLPackage.cpp:223-526 | The writer leaves on the stream what the image says, and fails exactly when a part that must move has a relocation beyond its data |
| `PackageWriter.Package.PlaceParts` | DCL/Package/TDCLPackage.cpp:292-303 | The first pass places every part at its offset, or fails |
| `PackageWriter.Package.WriteParts` | DCL/Package/TDCLPackage.cpp:433-466 | The bodies are written, each padded, and their relocations collected in order |
| `PackageWriter.Package.WriteEntries` | DCL/Package/TDCLPackage.cpp:337-365 | The entries are written with offsets from the start of the part data |
| `PackageWriter.Package.AddPart` | DCL/Package/TDCLPackage.cpp:990-1034 | The package becomes the one with that entry, without extra info, after the others; the part itself is taken, not copied |
| `PackageWriter.Package.RemovePart` | DCL/Package/TDCLPackage.cpp:1040-1060 | The package becomes the one without that entry, the others in their order |
| `PackageWriter.LayoutFromIs` | DCL/Package/TDCLPackage.cpp:234-312 | The accumulated sizes and flags are those of the layout |
| `PackageReader.ReadPackage` | DCL/Package/TDCLPackage.cpp:604-985 | The reader builds the package the specification reads from the bytes, or fails with the same exception |
| `PackageReader.ScanRelocations` | DCL/Package/TDCLPackage.cpp:924-937 | The single scan finds the slice of a part |
| `PackageReader.ReadDirectory` | DCL/Package/TDCLPackage.cpp:612-692 | Header, entries and directory data are read, sizes checked |
| `PkgParts.PkgPart.Encode` | DCL/Package/TDCLPkgRelocatablePart.cpp:157-176 | Every relocated word is moved by the distance from the base address, up to the first relocation beyond the data, which throws |
| `PkgParts.PkgPart.GetSize` | DCL/Package/TDCLPkgPart.cpp:105-119 | Encodes when the offset changed and the part has relocations, and remembers the offset |
| `PkgParts.PkgPart.GetBuffer` | DCL/Package/TDCLPkgPart.cpp:124-138 | The same for the bytes |
| `PkgParts.PkgPart.SetRelocations` | DCL/Package/TDCLPkgRelocatablePart.cpp:104-122 | Relocations are kept relative to the origin given |
| `PartMove.RelocatedWord` | DCL/Package/TDCLPkgRelocatablePart.cpp:163-174 | Each relocated word is moved once, modulo 2^32 |
| `PartMove.RelocatedElsewhere` | DCL/Package/TDCLPkgRelocatablePart.cpp:163-174 | Bytes outside the relocated words stay |
| `PartMove.MovesCompose` | DCL/Package/TDCLPkgRelocatablePart.cpp:163-174 | Moving twice is moving once by the sum |
| `PartMove.MovesDiffer` | DCL/Package/TDCLPkgRelocatablePart.cpp:163-174 | Two distances give the same bytes if and only if there is no relocation or they are equal modulo 2^32 |
| `PartMove.MovedRightlyIff` | DCL/Package/TDCLPkgRelocatablePart.cpp:157-176 | The encoder moves a part rightly if and only if the part stays, has no relocation, or was last encoded for its base address |
| `PartMove.RereadMovedRightlyIff` | DCL/Package/TDCLPackage.cpp:960-963 | A part of a package that was read back, asked for its bytes at any place, is moved rightly if and only if it has no relocations, stays, or the load address and the part's own offset cancel: the reader gives it the start of the part data as base |
| `PartMove.SecondPartMovedWrongly` | DCL/Package/TDCLPackage.cpp:960-963 | Of a package of two parts, read at address 0, the second is moved wrongly to every other place |
| `MemStreams.MemStream.Read` | DCL/Streams/TDCLMemStream.cpp:110-128 | Reads what is there, up to the count |
| `MemStreams.MemStream.Write` | DCL/Streams/TDCLMemStream.cpp:133-160 | Writes over what is there, past the end if need be |
| `MemStreams.MemStream.SetCursor` | DCL/Streams/TDCLMemStream.cpp:189-240 | Moves the cursor inside the data or to its end, counted from the start, from the end backwards or from where it is, or throws |
| `MemStreams.MemStream.PutLong` | DCL/Streams/TDCLStream.cpp:332-339 | Big-endian, at the cursor |
| `MemStreams.MemStream.GetLong` | DCL/Streams/TDCLStream.cpp:313-327 | The big-endian word at the cursor, or the end of file |
| `MemStreams.MemStream.PutXLong` | DCL/Streams/TDCLStream.cpp:381-395 | One byte up to 254, else 0xFF and the word; GetXLong reads it back |
| `MemStreams.MemStream.GetXLong` | DCL/Streams/TDCLStream.cpp:344-376 | The byte, or after 0xFF the word, or the end of file |
| `MemStreams.XLongAtIff` | DCL/Streams/TDCLStream.cpp:344-395 | A value is read from exactly what is written for it, and one that fits a byte also from the long form; it ends the file exactly where neither form is whole |
| `MemStreams.XLongForms` | DCL/Streams/TDCLStream.cpp:381-395 | A value below 255 is written in one byte, any other as 255 and its four bytes |
| `Crc16.UpdateIsBitwise` | DCL/Communication_Layers/TDCLMNPPipe.cpp:549-554 | The table-driven update is eight steps of the register with polynomial 0xA001 |
| `Crc16.Table` | DCL/Communication_Layers/TDCLMNPPipe.cpp:84-118 | Every entry of the table is eight steps of its index |
| `Crc16.CrcIsSerial` | DCL/Communication_Layers/TDCLMNPPipe.cpp:482-506 | The CRC of any bytes is that of their bits fed one at a time |
| `Crc16.UpdateInjective` | DCL/Communication_Layers/TDCLMNPPipe.cpp:549-554 | The update loses nothing of the running CRC |
| `Crc16.BurstDetected` | DCL/Communication_Layers/TDCLMNPPipe.cpp:482-506 | Data of one length that differ only inside a burst of sixteen bits have the same CRC if and only if they are equal, at any length; so for the frame CRC |
| `Crc16.AdjacentBytesDetected` | DCL/Communication_Layers/TDCLMNPPipe.cpp:482-506 | In particular for one byte or two adjacent ones |
| `Crc16.OddErrorsDetected` | DCL/Communication_Layers/TDCLMNPPipe.cpp:482-506 | Any odd number of wrong bits changes the CRC |
| `MnpFrame.FrameAtIff` | DCL/Communication_Layers/TDCLMNPPipe.cpp:385-507 | The receiver accepts data exactly from the bytes that some number of SYNs and the sender's encoding of that data make, and stops just after them |
| `MnpFrame.StreamReadBack` | DCL/Communication_Layers/TDCLMNPPipe.cpp:385-507 | Reading the frames of any list of byte strings, with any number of SYNs before each, gives exactly that list and uses exactly those bytes |
| `MnpFrame.StuffedReadBack` | DCL/Communication_Layers/TDCLMNPPipe.cpp:415-455 | Stuffed data is read back, whatever bytes it has |
| `MnpFrame.BodyAccepts` | DCL/Communication_Layers/TDCLMNPPipe.cpp:415-455 | Whatever is accepted after the STX is stuffed data and its end |
| `MnpFrame.DamageRefused` | DCL/Communication_Layers/TDCLMNPPipe.cpp:437-446 | A frame whose data was changed by a burst of sixteen bits is refused |
| `MnpFrame.FirstReceived` | DCL/Communication_Layers/TDCLMNPPipe.cpp:385-460 | Of frames sent one after the other the first is received and the others are left |
| `MnpLine.WriteFrame` | DCL/Communication_Layers/TDCLMNPPipe.cpp:462-507 | The bytes written one by one are the encoding of the frame |
| `MnpLine.ReadFrame` | DCL/Communication_Layers/TDCLMNPPipe.cpp:385-460 | The bytes read one by one give what the specification receives, or the same exception |
| `MnpLine.ReadBody` | DCL/Communication_Layers/TDCLMNPPipe.cpp:415-460 | The growing buffer holds the data so far and is never written past its end |
| `MnpEndpoint.WriteConserves` | DCL/Communication_Layers/TDCLMNPPipe.cpp:230-260 | The frames sent and the buffer left hold, in order, what the buffer held and what was written; every frame is full and numbered in turn |
| `MnpEndpoint.RepliesAreAcks` | DCL/Communication_Layers/TDCLMNPPipe.cpp:265-305 | Without keep-alive exactly the data frames are acknowledged, once each, in order, by their indices |
| `MnpEndpoint.CarriesIff` | DCL/Communication_Layers/TDCLMNPPipe.cpp:265-305 | A frame with bytes behind its header gives these to the input and is acknowledged with its index, unless it is of four bytes with 5 as the second: then the input stays, and without keep-alive there is no answer |
| `MnpEndpoint.KeepAliveReplies` | DCL/Communication_Layers/TDCLMNPPipe.cpp:265-305 | With keep-alive every frame is answered, acknowledgements too, each with the index received last by then |
| `MnpEndpoint.LastIndexIs` | DCL/Communication_Layers/TDCLMNPPipe.cpp:265-305 | The index received last is that of the last data frame, however many acknowledgements follow |
| `MnpKnownFrames.AckOnLine` | DCL/Communication_Layers/TDCLMNPPipe.cpp:467-505 | The acknowledgement of index 1 is 16 10 02 03 05 01 08 10 03 52 CD on the line, and is received as 3, 5, 1, 8 |
| `MnpKnownFrames.DataOnLine` | DCL/Communication_Layers/TDCLMNPPipe.cpp:467-505 | The data frame of index 2 with 41 10 42 is fourteen given bytes on the line, its DLE doubled, and is received with it single |
| `MnpKnownFrames.FrameCrcIsSerial` | DCL/Communication_Layers/TDCLMNPPipe.cpp:475-505 | The CRC of a frame is that of the bits of its data and of the ETX that ends it, one after the other |
| `MnpPipes.MnpPipe.Write` | DCL/Communication_Layers/TDCLMNPPipe.cpp:230-260 | The loop over chunks leaves the state and sends the frames of the specification |
| `MnpPipes.MnpPipe.SendData` | DCL/Communication_Layers/TDCLMNPPipe.cpp:310-336 | A frame of header, LT, index and buffer; the index goes on modulo 256 and the buffer empties |
| `MnpPipes.MnpPipe.FlushOutput` | DCL/Communication_Layers/TDCLMNPPipe.cpp:341-346 | Sends the buffer, full or not |
| `MnpPipes.MnpPipe.SendAck` | DCL/Communication_Layers/TDCLMNPPipe.cpp:351-362 | An acknowledgement with the index received last |
| `MnpPipes.MnpPipe.ReceiveData` | DCL/Communication_Layers/TDCLMNPPipe.cpp:265-305 | Takes one frame: data is acknowledged and kept, an acknowledgement is answered only to keep alive |
| `MnpPipes.MnpPipe.Read` | DCL/Communication_Layers/TDCLMNPPipe.cpp:190-225 | The bytes read and those unread are what was unread and the data of the frames taken, in order, and the pipe is as the turns of the loop leave it; or the exception for the first bytes that are no frame, with all before them taken |
| `MnpSystem.EveryRunConserves` | DCL/Communication_Layers/TDCLMNPPipe.cpp:190-362 | In every run of two ends, in any interleaving of the turns of their loops, both directions conserve the bytes written, number the data frames, acknowledge each that arrived exactly once, and never meet bytes they refuse |
| `MnpRuns.EveryUseConserves` | DCL/Communication_Layers/TDCLMNPPipe.cpp:190-362 | So however the two ends use Write, FlushOutput and Read |
| `MnpRuns.OperationIsRun` | DCL/Communication_Layers/TDCLMNPPipe.cpp:190-362 | Every operation is a run of the system |
| `MnpRuns.WriteIsRun` | DCL/Communication_Layers/TDCLMNPPipe.cpp:230-260 | Write is a run of chunks put in the buffer: it leaves the pipe and the line as Write does |
| `MnpRuns.ReadIsRun` | DCL/Communication_Layers/TDCLMNPPipe.cpp:190-225 | The turns of a Read are a run of frames taken and bytes handed out: it leaves the pipe, the reply line and what is left of the line as Read does |
| `MnpRuns.PipeFetches` | DCL/Communication_Layers/TDCLMNPPipe.cpp:265-305 | The frames a Read took, at their positions among all bytes that came in, are the first frames of what was left on the line |
| `MnpSystem.StepKeepsInv` | DCL/Communication_Layers/TDCLMNPPipe.cpp:190-362 | Every step keeps the invariant |
| `MnpSystem.SoundConserves` | DCL/Communication_Layers/TDCLMNPPipe.cpp:190-362 | The invariant gives conservation, acknowledgement and acceptance for a direction |
| `MnpSystem.QuietMeansArrived` | DCL/Communication_Layers/TDCLMNPPipe.cpp:190-362 | Once the lines and the output buffer are empty everything written has arrived and been acknowledged |
| `MnpSystem.IndexIs` | DCL/Communication_Layers/TDCLMNPPipe.cpp:329 | The n-th data frame has index (1 + n) modulo 256 |
| `MnpSystem.OnLineIs` | DCL/Communication_Layers/TDCLMNPPipe.cpp:385-507 | The bytes of a line determine the frames on it |
| `DesCipher.DecodedEncoded` | K/Crypto/UDES.cpp:222-584 | Decoding undoes encoding, for every block and any list of subkeys |
| `DesCipher.EncodedDecoded` | K/Crypto/UDES.cpp:222-584 | Encoding undoes decoding |
| `DesCipher.RoundUndone` | K/Crypto/UDES.cpp:367-375 | A round undoes itself on the swapped halves, whatever the S-boxes |
| `DesCipher.FinalOfInitial` | K/Crypto/UDESTables.cpp:155-207 | The two permutation tables are inverse, with the halves swapped |
| `DesCipher.InitialOfFinal` | K/Crypto/UDESTables.cpp:155-207 | And in the other order |
| `DesCipher.EncodedNot` | K/Crypto/UDES.cpp:222-417 | The complement of a block under complemented subkeys is encoded to the complement |
| `DesCipher.EncodedTwice` | K/Crypto/UDES.cpp:222-417 | With equal subkeys encoding is its own inverse |
| `DesKeys.SameScheduleIff` | K/Crypto/UDES.cpp:76-201 | Two keys have the same subkeys if and only if they differ at most in the last bit of each byte |
| `DesKeys.SameNewtonScheduleIff` | K/Crypto/UDES.cpp:207-217 | For the Newton schedule, if and only if at most in the first bit of each byte |
| `DesKeys.RotationsTotal` | K/Crypto/UDES.cpp:140-158 | The rotations encoded in 0x7EFC are one or two and total 28 |
| `DesKeys.HalvesReturn` | K/Crypto/UDES.cpp:148-158 | After the last subkey the halves are back where they started |
| `DesKeys.ComplementEncoded` | K/Crypto/UDES.cpp:76-417 | The complement of a block under the complement of a key is encoded to the complement |
| `DesKeys.NewtonComplementEncoded` | K/Crypto/UDES.cpp:207-417 | So for the Newton variant: the bits it shifts in are never taken |
| `DesKeys.WeakKey` | K/Crypto/UDES.cpp:76-201 | A key with constant halves has one subkey and is its own decoding key |
| `DesTables.PC1Is` | K/Crypto/UDESTables.cpp:68-104 | Permuted choice 1 in closed form: down the bytes, column by column |
| `DesTables.PC1` | K/Crypto/UDESTables.cpp:68-104 | Permuted choice 1 takes from the word its table says and never the last bit of a byte |
| `UDes.KeySchedule` | K/Crypto/UDES.cpp:76-201 | The loops over words make the subkeys of the key |
| `UDes.NewtonKeySchedule` | K/Crypto/UDES.cpp:207-217 | The same after shifting each half of the key |
| `UDes.EncodeBlock` | K/Crypto/UDES.cpp:222-417 | The words that come out are the encoded bits |
| `UDes.DecodeBlock` | K/Crypto/UDES.cpp:422-584 | The words that come out are the decoded bits |
| `UDes.Substitute` | K/Crypto/UDES.cpp:310-352 | The eight S-boxes over two words of 24 bits |
| `UDes.Encode` | K/Crypto/UDES.h:65-99 | A block under a key, plain or for the Newton: the subkeys are made and the block is encoded with them |
| `UDes.Decode` | K/Crypto/UDES.h:79-113 | The same for decoding; with WordsRestored, each undoes the other |
| `UDes.WordsRestored` | K/Crypto/UDES.cpp:222-584 | In words: decoding after encoding, and encoding after decoding, give the block back |
| `DesWords.NextIsRound` | K/Crypto/UDES.cpp:280-375 | A round on words is the round of the cipher, for every subkey: the selection by turning the word, the S-boxes, the permutation by its masks |
| `DesWords.FinalWords` | K/Crypto/UDES.cpp:382-417 | The final permutation on words takes the bits of the two halves in turn |
| `DesWords.ScheduleStep` | K/Crypto/UDES.cpp:135-201 | One more subkey on words: the halves rotated, and chosen from by the masks of permuted choice 2 |
| `DesKnownAnswer.WorkedSubKeys` | K/Crypto/UDES.cpp:76-201 | The sixteen subkeys of the key 133457799BBCDFF1, as words |
| `DesKnownAnswer.WorkedExample` | K/Crypto/UDES.cpp:76-417 | Under that key the block 0123456789ABCDEF is encoded to 85E813540F0AB405 |
| `DesKnownAnswer.NewtonExample` | K/Crypto/UDES.cpp:207-417 | For the Newton so under the key 099A2BBC4DDE6FF8 |
| `DesKnownAnswer.EqualGroups1` | K/Crypto/UDESTables.cpp:288-400 | With its fifteen companions: what the S-boxes make of the 64 blocks of eight equal groups of six bits, so every entry of each |
| `DesKnownAnswer.KnownAnswer` | K/Crypto/UDES.cpp:76-417 | The tables give the known answer of DES: under the key of zeros, in both schedules, the block of zeros is encoded to 8CA64DE9C1B123A7 |
| `DesPasswords.CreateKey` | K/Crypto/UDES.cpp:666-832 | The loop over the string makes the key of the password: its blocks, zeros after its end, encoded one after the other, each under the key made of the one before |
| `DesPasswords.KeyOfWords` | K/Crypto/UDES.cpp:798-825 | The key of an encoded block: last bits set for odd parity, and for the Newton those that were set put back |
| `DesPasswords.OddByte` | K/Crypto/UDESTables.cpp:377-394 | The table gives the byte of odd parity that differs at most in its last bit |
| `DesPasswords.OddWordIs` | K/Crypto/UDES.cpp:800-807 | Through the table each byte of a word gets odd parity |
| `DesPasswords.PasswordKeyOdd` | K/Crypto/UDES.cpp:666-832 | Every byte of a password key has odd parity, whatever the creation key |
| `DesPasswords.NewtonByteOddIff` | K/Crypto/UDES.cpp:817-819 | For the Newton a byte of the key is odd if and only if the encoded byte was, or had its last bit clear |
| `DesPasswords.NewtonPasswordOddIff` | K/Crypto/UDES.cpp:817-828 | So for the key of any password, by its last block encoded |
| `DesPasswords.EmptyPasswordKeys` | K/Crypto/UDES.cpp:666-832 | The empty password under the creation key of zeros makes the key 8CA74CE9C1B023A7, and for the Newton 8CA74DE9C1B123A7 |
| `DesPasswords.LetterKeys` | K/Crypto/UDES.cpp:666-832 | The keys of the password A under the creation key of zeros: 6749FEEC2C157F38, and for the Newton 6749FFED2D157F38 |
| `DesPasswords.LettersKey` | K/Crypto/UDES.cpp:666-832 | The key of the password ABCD, of two blocks, the second encoded under the key of the first: 1F7A79D0F13D80A7 |
| `DesPasswords.NewtonKeyEven` | K/Crypto/UDES.cpp:817-819 | In that key of the Newton the third and the sixth byte are even |
| `DesPasswords.ParityKeepsSubKeys` | K/Crypto/UDES.cpp:798-807 | Setting the parity keeps the subkeys of the encoded block |
| `DesPasswords.SpareBitsDoNotMatter` | K/Crypto/UDES.cpp:666-832 | Creation keys that differ only in bits the schedule leaves out give every password the same key |
| `DesPasswords.NextKeySameIff` | K/Crypto/UDES.cpp:782-807 | Two blocks make one key if and only if they are encoded to words that differ at most in the last bits of their bytes |
| `DesPasswords.BlocksTell` | K/Crypto/UDES.cpp:703-769 | Padding confuses no two passwords: those with the same blocks are the same |
| `Modular.MultModulo` | K/Math/UTInt64.cpp:256-313 | The product modulo any 64-bit number but 0, though sums and doubles wrap; the loop takes as many turns as the second factor, reduced, has bits, at most 64 |
| `Modular.ExpModulo` | K/Math/UTInt64.cpp:321-355 | The power modulo a number if and only if not both the exponent is 0 and the modulus 1; then the result is 1; the loop takes as many turns as the exponent has bits |
| `Modular.BitLengthIff` | K/Math/UTInt64.cpp:256-355 | A number has at most so many bits if and only if it is below that power of two |
| `Modular.NothingRaised` | K/Math/UTInt64.cpp:321-355 | To the power 0 modulo 1 the answer is 1, not 0 |
| `TwoWords.TUInt64.Plus` | K/Math/TUInt64.cpp:58-71 | The sum modulo 2^64; adding to itself is right if and only if the low half does not carry |
| `TwoWords.TUInt64.PlusWord` | K/Math/TUInt64.cpp:41-53 | The sum modulo 2^64 |
| `TwoWords.TUInt64.Minus` | K/Math/TUInt64.cpp:94-108 | The difference modulo 2^64 |
| `TwoWords.TUInt64.MinusWord` | K/Math/TUInt64.cpp:77-89 | The difference modulo 2^64 if and only if the borrow test, made on the wrong side, happens to be right |
| `TwoWords.TUInt64.AddWithCarry` | K/Math/TUInt64.cpp:327-341 | The sum modulo 2^64, and whether it wrapped, answered rightly if and only if not both the other high half is all ones and the low halves carry; of a number and itself the sum is right if and only if the low half does not carry, and the answer wrong then for two high halves |
| `TwoWords.CarriedWrongly` | K/Math/TUInt64.cpp:327-341 | 1 and 2^64 - 1 are answered not to wrap |
| `TwoWords.DoubledWrongly` | K/Math/TUInt64.cpp:58-71 | 2^31 added to itself is not 2^32 |
| `TwoWords.BorrowedWrongly` | K/Math/TUInt64.cpp:77-89 | 2^32 + 5 less 1 is not 2^32 + 4 |
| `TwoWords.TUInt64.TimesWord` | K/Math/TUInt64.cpp:157-179 | The product modulo 2^64 |
| `TwoWords.TUInt64.Times` | K/Math/TUInt64.cpp:184-205 | The product modulo 2^64, also by itself |
| `TwoWords.TUInt64.ShiftRight` | K/Math/TInt64.cpp:123-133 | Half, and the bit shifted out |
| `TwoWords.TUInt64.ShiftLeft` | K/Math/TInt64.cpp:138-148 | The double modulo 2^64, and the bit shifted out |
| `TwoWords.TUInt64.ShiftRightBy` | K/Math/TUInt64.cpp:210-232 | The quotient by a power of two |
| `TwoWords.TUInt64.ShiftLeftBy` | K/Math/TUInt64.cpp:237-259 | The product by a power of two modulo 2^64 |
| `TwoWords.TUInt64.EuclideanDivision` | K/Math/TUInt64.cpp:264-322 | Quotient and remainder, including when the divisor overflows while it is doubled |
| `TwoWords.TUInt64.CountDoublings` | K/Math/TUInt64.cpp:290-303 | The largest number of doublings that stay at most the dividend |
| `TwoWords.TUInt64.AtMost` | K/Math/TUInt64.cpp:408-414 | Comparing halves compares numbers |
| `EventQueues.EventQueue.Post` | DCL/Interfaces/TDCLThread.cpp:161-183 | Appends an event; the list stays linked, its last node known |
| `EventQueues.EventQueue.Take` | DCL/Interfaces/TDCLThread.cpp:87-156 | Takes the first event of the mask out of the list, from its front, middle or end; or none |
| `EventQueues.MatchIsFirst` | DCL/Interfaces/TDCLThread.cpp:100-117 | What is found is the first event whose kind has a bit of the mask, and nothing is found only if there is none |
| `EventQueues.EventQueue.Find` | DCL/Interfaces/TDCLThread.cpp:100-117 | The scan finds the first event of the mask and the one before it |
| `EventQueues.EventQueue.Unlink` | DCL/Interfaces/TDCLThread.cpp:119-138 | Without the event the list is linked, and empty exactly when it has no last node |
| `EventQueues.EventQueue.DeleteAll` | DCL/Interfaces/TDCLThread.cpp:73-81 | The destructor deletes every event left, once |
| `EventWait.EveryRun` | DCL/Interfaces/TDCLThread.cpp:87-183 | In every interleaving of posters and the waiter nothing is lost or delivered twice, what is skipped keeps its order, what a mask asks for comes in posting order, and no sleeping waiter is forgotten |
| `EventWait.StepKeepsInv` | DCL/Interfaces/TDCLThread.cpp:87-183 | Every step keeps that |
| `EventWait.SleeperWakes` | DCL/Interfaces/IDCLThreads.h:167-188 | A waiter asleep with an event it asks for can be woken now, or once a poster reaches WakeUp |
| `EventWait.OneMaskInOrder` | DCL/Interfaces/TDCLThread.cpp:87-183 | With one mask events are delivered in posting order |
| `EventWait.DeliveredAsAsked` | DCL/Interfaces/TDCLThread.cpp:100-138 | In every run each event delivered has a bit of the mask it was asked for with, and every event posted before it that has one was delivered before |
| `EventWait.AnyEventAndNone` | DCL/Interfaces/TDCLEvent.h:59-70 | The mask of all ones asks for every event whose kind is not zero, the mask zero for none |
| `EventWait.LookFirstCome` | DCL/Interfaces/TDCLThread.cpp:100-138 | A delivery passes over no earlier event of its mask |
| `CircleBuffers.CircleBuffer.Produce` | K/Misc/TCircleBuffer.cpp:81-125 | Appends bytes, growing if it must; one byte stays free |
| `CircleBuffers.CircleBuffer.Peek` | K/Misc/TCircleBuffer.cpp:159-207 | The first bytes, around the end |
| `CircleBuffers.CircleBuffer.Consume` | K/Misc/TCircleBuffer.cpp:148-154 | Takes the first bytes |
| `CircleBuffers.CircleBuffer.Discard` | K/Misc/TCircleBuffer.cpp:212-229 | Drops the first bytes |
| `CircleBuffers.CircleBuffer.AvailableBytes` | K/Misc/TCircleBuffer.cpp:130-143 | How many bytes there are |
| `BufferedPipes.BufferedPipe.Write` | DCL/Communication_Layers/TDCLBufferedPipe.cpp:130-184 | Accepts the whole input, or when the pipe below throws a prefix of it; delivered bytes and buffer are always what was accepted, in order; it succeeds if and only if the pipe below takes as many full buffers as the bytes make; the count reported after a failure is right if and only if the buffer was full before and could not be drained at once |
| `BufferedPipes.ReportedWrongly` | DCL/Communication_Layers/TDCLBufferedPipe.cpp:130-184 | A byte that was accepted and will be delivered is reported as not written |
| `BufferedPipes.BufferedPipe.FlushOutput` | DCL/Communication_Layers/TDCLBufferedPipe.cpp:86-116 | Drains the buffer if there is anything in it and flushes the pipe below, and succeeds if and only if both do; what was not delivered stays in the buffer |
| `Links.Link.Run` | DCL/Link/TDCLLink.cpp:480-558 | The loop ends as, in the state, through the states and with the events the plan of what it meets leads to; when it returns the link is disconnected, has no pipe and has told the server once; when it throws, neither |
| `Links.Link.TakeTurn` | DCL/Link/TDCLLink.cpp:503-538 | A turn goes on in the next state, stops at an end of file or once disconnected, or throws on |
| `Links.Link.TransitionFromRunning` | DCL/Link/TDCLLink.cpp:562-679 | The event taken is deleted exactly once and the link is not busy afterwards, whatever was thrown, and the next state is that of the event |
| `Links.Link.ServeAppCommand` | DCL/Link/TDCLLink.cpp:592-618 | Exceptions of the library end at the application, others go on; a command nobody processed is one |
| `Links.Link.ServeDockCommand` | DCL/Link/TDCLLink.cpp:624-654 | Without bytes left only the signal is cleared; a message nobody processed is refused; whatever throws first goes on |
| `Links.Link.DoDisconnect` | DCL/Link/TDCLLink.cpp:398-474 | An end of file leaves it if and only if the farewell threw it; it ends disconnected if and only if there is a pipe and nothing else was thrown |
| `Links.StatesFollow` | DCL/Link/TDCLLink.cpp:480-558 | The states follow connecting, connected, running, disconnecting or disconnected, whatever is thrown, as long as the protocol only asks to go on or to stop |
| `Links.HowItEnds` | DCL/Link/TDCLLink.cpp:538-543 | An end of file never leaves the loop and nothing leaves it from the disconnected state; it returns only disconnected |
| `Links.Link.HandleException` | DCL/Link/TDCLLink.cpp:683-708 | After an exception the link is disconnected, or unknown when it had got as far as a connection; it never runs, and a next turn would be the last of the loop |
| `Links.Link.Destroy` | DCL/Link/TDCLLink.cpp:130-141 | The destructor tells the server if nobody has |
| `Links.Life` | DCL/Link/TDCLLink.cpp:130-558 | A link that was connected, ran and was destroyed has told its server exactly once, and deleted every event it took once, those the plan gave it |
| `Links.NeverRunsAgain` | DCL/Link/TDCLLink.cpp:480-558 | On its path a link that disconnects never runs again |
| `Links.FarewellIff` | DCL/Link/TDCLLink.cpp:398-679 | In a run that no exception cuts short, the disconnect command is sent once if the link met an event to disconnect or the protocol asked to, and otherwise never |
| `Links.ClosedWithoutFarewell` | DCL/Link/TDCLLink.cpp:648-658 | A link told to close sends none, and is disconnected in the next turn |
| `Links.EventLeads` | DCL/Link/TDCLLink.cpp:592-658 | What a running link is next: disconnecting when told to disconnect, disconnected when told to close, running after another event; after a command what the protocol asked for, and running if it could not be asked |

## Left out

- PackageValue: parts of the NewtonScript kind are read as raw bytes and have no relocations; their own encoder is not shown.
- RelocTable.ReadSets: a set of more than 256 offsets is read whole; the fixed array of 256 in the original is not modelled.
- PackageReader.ReadPackage: the sum of a part's offset and size, and of its start, does not wrap at 32 bits; where it would, the original copies from outside the part data.
- PackageRoundTrip.RoundTrip: requires a package below 2^32 bytes, each string, each info and each info offset below 2^16, and ascending aligned relocations inside their part with addresses below 2^26; these are the limits of the format fields. The infos that come back are those at the offsets written, which are wrong behind extra info (InfoOffsetIff, RereadKeepsInfosIff).
- PkgParts.PkgPart.SetRelocations: the sort is modelled as keeping the order, because its comparison compares positions.
- PkgParts.PkgPart.Encode: requires relocations that are not in the last three bytes of the data, where the original writes past it; encoding the same part more than once adds up distances from the same base; what is stated is one move.
- MemStreams.MemStream.Write: the memory beyond the size of the stream, and streams of 4 GiB, are not modelled; nor are PeekByte, strings and lines.
- MnpPipes.MnpPipe.constructor: starts after the connection headers have been exchanged; the headers, the footer and the pipe below failing are not modelled, and the output buffer holds at least one byte.
- MnpPipes.MnpPipe.ReceiveData: requires frames of at least three bytes, as the original reads past shorter ones; so does Read.
- MnpPipes.MnpPipe.FlushOutput: the pipe below it is not flushed.
- MnpSystem.EveryRunConserves: a frame is put on a line and taken from it whole; how the bytes of one arrive in time is not modelled.
- DesCipher.Encoded: ECB mode and its random padding are not modelled.
- TwoWords.TUInt64.ShiftLeftBy: requires a shift of at least one, because a shift by zero shifts a half by its whole width, which C++ leaves undefined.
- TwoWords.TUInt64.ShiftRightBy: the same.
- TwoWords.TUInt64.EuclideanDivision: requires a dividend of at least twice the divisor, or at most the divisor; between the two it shifts by zero.
- Modular.MultModulo: the native branch; the other rests on Add, whose answer is not always right.
- EventWait.EveryRun: a section under the semaphore is one step; threads, the clock and suspension are not modelled.
- BufferedPipes.BufferedPipe.Write: requires a capacity of at least one, as the loop would not end.
- Links.Link.Run: runs for the turns it is given; the mutex, the server's queue and what the protocol exchanges are not modelled, and telling the server does not throw. The link is modelled alone, not with the server.
- CircleBuffers.CircleBuffer.Peek: returns the bytes instead of copying them to the caller's memory.
- Sockets, files, threads of the platform, dock commands, engines, string conversion, exceptions as classes, the hammer pipe and CRC-32 are not modelled.
