# QuickLogger: verified models

QuickLogger is a net logger for amateur radio and GMRS. People log into it over
SSH, so besides its lists and forms it carries a file transfer protocol, a
screen writer, upload services, a way to merge logs between installs, and a way
to push sessions to another install. This project models that machinery in
Dafny and proves what it is for. `dafny verify dfyconfig.toml` checks all of it.

What the program does step by step is written as classes and methods with loops;
each is proved against a function or a state machine, and the lemmas say what
that function or machine is good for.

## What is here

- **ZMODEM** (`shift_register.dfy`, `zmodem_*.dfy`). The checksums as bit-serial registers and the
  bursts they catch; the wire format (link escapes, hex and binary headers, data
  subpackets) with encoder, reader and the round trip between them; sender and
  receiver as state machines on two queues, with an invariant kept by every step
  of every run; which headers a reader takes; runs that show a batch can arrive,
  that it can recover from whatever was garbled or lost, and one that cuts a file
  short; and both programs, nested loops and all, proved to follow the machines. Sections
  7.1 (link escapes), 7.2 (headers), 7.3 (data subpackets) and 8 (transactions)
  of Forsberg's ZMODEM specification are what the program implements.
- **The screen writer** (`frame_*.dfy`). A terminal that interprets the
  control functions used (ECMA-48, sections 8.3.20 CUF, 8.3.21 CUP, 8.3.39 ED and
  8.3.117 SGR), the differential writer proved against it frame by frame, and what
  screen, kept copy and cursor come to after any frames of any sizes.
- **Nets between databases** (`net_*.dfy`, with `postal_codes.dfy`,
  `frequencies.dfy` and `modes.dfy`). Keys that compare logs, matching of
  sessions, planning and carrying out a merge, what it leaves behind (sessions,
  check-ins, stations and saved entries, whatever is replaced), what merging again
  finds, the details of stations taken, a whole net through a file, and the fields
  put right on the way.
- **Pushing upstream** (`upstream_*.dfy`, `command_text.dfy`, `result_text.dfy`).
  The choice of a net, the protocol between any number of clients and the server as
  a state machine, confirmations, and the two texts they exchange.
- **Uploads** (`upload_store.dfy`, `sftp_*.dfy`, `scp_*.dfy`). Paths, names, the
  quota, and both services over one file system that may refuse or cut short any
  operation, each as a whole run told from what its client sent and was told.
- **Fast forms of simple things.** `windows_command_line.dfy`, `wildcards.dfy`,
  `typos.dfy`, `net_names.dfy`, `list_*.dfy`, `uls_import.dfy`,
  `zip_archive.dfy` and `zip_extract.dfy`.
- **Shared helpers.** `bytes.dfy`, `byte_text.dfy`, `byte_values.dfy`,
  `characters.dfy`, `numerals.dfy`, `sets.dfy`.

Where the outside world decides (a write that fails, a reply that is lost, how
much of its input inflate takes, what else happens in a folder), the models let it
decide in any way at all.

## What the proofs found

- **ZMODEM positions are 32 bits.** Of each file the first (size modulo 2^32) bytes
  are received. Whatever is received is whole in every run if and only if the first
  file of 2^32 bytes or more, if there is one, is no multiple of 1024 long; if it
  is, `ZmodemRuns.CutShort` gives a run in which one lost block ends in a truncated
  copy being accepted.
- **Two ends left waiting for each other.** Wherever the sender is in the data of a
  file under 2^32 bytes that is taken, the file can still arrive whole once nothing
  goes wrong any more, if and only if the sender has not sent its ZEOF and been left
  with nothing on its way to a receiver inside the file and no request on its way
  back (`ZmodemRecovery.RecoversIff`). A receiver inside a file asks only when
  something bad or out of place comes, never for having waited, and the sender
  repeats neither its last block nor ZEOF; so a last request lost leaves both to time
  out (`ZmodemRecovery.CanStrand`). Any noise brings them back
  (`ZmodemRecovery.CanRecover`). Between files the receiver does say again that it is
  ready, so a lost ZRINIT never strands them (`ZmodemRecovery.SucceedsUnlessStranded`).
- **File data can be taken for a header.** No checksum protects the search for a
  header, and file data can spell one (`ZmodemCorruption.DataCanSpellHeader`). A
  subpacket is passed over if and only if its data does not end in an asterisk and
  neither its data nor its checksum has one before a byte that is escaped
  (`ZmodemSkipping.SkippedIff`). The safety results assume that of file data
  skipped while a header is awaited.
- **The clamp missing in `CheckForRestart` does no harm** with a receiver of this
  program: no request points past the end of the file being sent.
- **The cursor after a hidden frame.** A frame that hides the cursor and writes
  cells moves the real cursor while the writer remembers the old place; an
  unchanged frame that shows it there again leaves it where it is
  (`FrameCursor.WriteAstray`). The cursor is right if and only if the last frame to
  stir it was one that shows it, or happened to stop writing there
  (`FrameCursor.RightIff`).
- **More than 255 links.** Links past the table are kept as none. All links met
  since the screen was last cleared are kept, and then kept copy and screen are the
  last frame, if and only if there are at most 255 besides the blank one
  (`FrameSequences.WriteAll`). With more, a frame that takes such a link away again
  is taken for one that changes nothing, and the screen goes on showing it, whatever
  was written before (`FrameLinks.LinksStay`). Characters and styles are right in any
  case.
- **Merging twice.** Sessions are listed in one order, in a file and here: by date,
  start and id, the latest first. Merged into an empty net, a file is found again
  whole if none of its sessions ends before it starts (`NetRemerging.EmptyFindsAll`),
  and only then, unless such a session overlaps another (`NetRemerging.EmptyIff`,
  `NetLost.ReversedIsFound`). Merged into any net, it is so if all sessions are closed
  with their times and no later date starts earlier (`NetRemerging.TimedFindsAll`);
  with a session that ends before it starts, if and only if each can still be given
  one of its own (`NetRemerging.TimedMergeIff`). Without times, or with a wrong date, a
  session can be lost and added again (`NetLost.UntimedIsLost`,
  `NetLost.WrongDateIsLost`), unless all stand apart
  (`NetMatching.MergingIsIdempotent`). `NetMerge.MergeTwice` is the run.
- **A member ID that comes with a new entry.** A call sign saved here without a
  member ID is given the file's only if the first of the file's records that has one
  is of an entry known by then; if that record is itself new, the ID goes to its
  entry alone and no later record gives the others one (`NetEntries.Gives`, which
  `NetMerge.MergeSaved` and `NetMerge.ApplyNetMerge` are stated with).
- **Taking a station's details costs it its member ID.** When the operator takes a
  detail of a station from the file, its entries on the net get the member ID of the
  row read from `stations`, where it is no longer kept (`src/net_slice.cpp:752-757`,
  `src/db/database.cpp:95-96`). Nothing but what is listed changes if and only if the
  member ID is listed too, or the net has none (`NetDetails.OnlyListedIff`); otherwise
  it is blanked (`NetDetails.TakingLosesId`, `NetMerge.MemberIdIsLost`), and comes back
  only if the file has one saved.
- **Streams that fill a buffer exactly.** An archive's entry is inflated through two
  buffers of 64 KB. When the bytes of one give a whole number of the other and the
  stream goes on, inflate is called once more with nothing to take and nothing to put
  out, which it answers with an error (`Z_BUF_ERROR`), and the entry is refused as
  corrupt. A sound entry comes out if and only if that happens nowhere
  (`ZipExtraction.StreamedIff`, `ZipExtraction.FileRoundTrip`); one of at most 64 KB
  always does.
- **One upload name for two sessions.** An upload is named for its net and date
  (`src/ui/app_state.cpp:1426-1429`), so two sessions of one net on one date, pushed
  as one upstream user, go up under one name, as do nets whose names are alike once
  sanitized. The later upload replaces the earlier one, and a client can be told its
  session was pushed when the other was. That can happen to a client if and only if
  someone pushes a session of another date or start under its upload's name
  (`UpstreamProtocol.MisledIffPlaceIsShared`). No session is imported twice even so.
- **Uploads opened together.** Each SFTP upload fits what was in `/imports` when
  it was opened; several open at once may together pass 100 MB
  (`SftpRuns.TwoAtOnce`). They can pass it if and only if the files, with some open
  uploads of different names grown to their limits in place of those they replace,
  come to more: `SftpRuns.StaysBounded` and `SftpRuns.FillUp` are the two halves. One
  at a time, over SFTP or SCP, uploads never pass it.
- **SCP exit status.** With exit status 0 a file offered is missing if and only if
  the stream ends right after the bytes of the last one: it is not saved for want of
  a confirmation (`ScpTransfer.Transfer.Receive`, `ScpTransfer.SendBare`). A line of
  more than 1,024 bytes ends the transfer as quietly as the stream's end does, and
  what it announces is no offer.
- **Windows program names.** Arguments always come back; a program's own name
  with a quote in it, or with a backslash at its end when it needs quotes, does
  not.
- **Columns added with the next.** The pair is shown together or not at all
  exactly when both or neither are always shown; a column that is itself added by
  the one before it never adds its own partner.
- **Import results.** A result is read back as sent if and only if its net id has
  at most 18 digits, its counts at most 6, and a question names a net.
- **FCC ids.** If two active licenses have one id, entity and class lines reach
  only the first (`UlsImport.SecondIsBare`). That shows if and only if one of those
  lines that counts says something of such an id (`UlsImport.JoinedIff`). Once the
  stored text passes 2^32 bytes references wrap
  (`UlsImport.UlsLicenses.StoreTooMuch`). The join is proved for all other files, the first
  license of an id included.

## Model

| member | source | states |
|---|---|---|
| ShiftRegister.TakeDetectsBurst | src/zmodem_protocol.cpp:51-88 | for any lawful bit-serial register of w bytes, from any start value: two byte strings that differ only inside a window of at most w bytes never leave the same register |
| ShiftRegister.TakeAtOnce | src/zmodem_protocol.cpp:51-88 | feeding up to a register width of bytes one at a time is the same as loading them all and shifting 8 times as many bits |
| ShiftRegister.StepsInjective | src/zmodem_protocol.cpp:51-69 | stepping the register any number of bits loses nothing: equal results come from equal registers |
| ZmodemCrc.SixteenIsLawful | src/zmodem_protocol.cpp:51-59 | the 16-bit register (high bit out, polynomial 0x1021) is linear, reversible and carries a waiting byte untouched |
| ZmodemCrc.ThirtyTwoIsLawful | src/zmodem_protocol.cpp:61-69 | the same of the 32-bit register (low bit out, polynomial 0xEDB88320) |
| ZmodemCrc.Crc16DetectsBurst | src/zmodem_protocol.cpp:51-78 | a change confined to two neighbouring bytes of equal-length data always changes the CRC-16, whatever comes before and after |
| ZmodemCrc.Crc32DetectsBurst | src/zmodem_protocol.cpp:61-88 | a change confined to four neighbouring bytes always changes the CRC-32 |
| ZmodemCrc.ZmodemCrc16 | src/zmodem_protocol.cpp:71-78 | the byte loop computes the CRC-16 the burst lemma is about |
| ZmodemCrc.ZmodemCrc32 | src/zmodem_protocol.cpp:80-88 | the byte loop, with its inverted start and end, computes the CRC-32 the burst lemma is about |
| ZmodemWire.PositionRoundTrip | src/zmodem_protocol.cpp:93-114 | a position put in a header is read back modulo 2^32, and exactly when it fits 32 bits |
| ZmodemWire.PutEscaped | src/zmodem_protocol.cpp:117-129 | appends the link escape of one byte and remembers the last byte sent |
| ZmodemWire.PutAllEscaped | src/zmodem_protocol.cpp:117-129 | the loop over a whole buffer appends its escape byte by byte, each knowing what was sent before it |
| ZmodemWire.EscapeAllAppend | src/zmodem_protocol.cpp:117-129 | escaping is stateful: a buffer in two pieces is escaped as the whole if the second piece starts from the last byte sent of the first |
| ZmodemRoundTrip.UnescapeUndoesEscape | src/zmodem_protocol.cpp:117-129 | whatever was sent before and whatever follows, reading an escaped byte gives that byte and leaves the rest |
| ZmodemCorruption.EscapedIsSafe | src/zmodem_protocol.cpp:117-129 | escaped output holds no raw XON, XOFF or their high-bit forms and no carriage return after an at sign, in either parity, and with escape_controls no control byte but the escape itself |
| ZmodemWire.HexHeader | src/zmodem_protocol.cpp:131-162 | the hex header built step by step is the one the round trip is about |
| ZmodemWire.BinaryHeader | src/zmodem_protocol.cpp:165-193 | the binary header built with one running "previous byte" is the escaped body and checksum |
| ZmodemWire.DataSubpacket | src/zmodem_protocol.cpp:197-232 | the subpacket built step by step is the one the round trip is about, XON after ZCRCW included |
| ZmodemReader.Reader.Unescaped | src/zmodem_protocol.cpp:271-327 | on any channel content returns the byte, frame end, cancel, timeout or close that undoing the escapes gives, and leaves exactly the rest |
| ZmodemReader.Reader.ReadHeader | src/zmodem_protocol.cpp:363-481 | on any channel content, with noise, half headers, bad letters, cancels and timeouts, gives the header result of the reference reader and leaves exactly its rest; of that reader ZmodemHeaders says which headers it takes, and which it reports bad |
| ZmodemReader.Reader.ReadBinaryHeader | src/zmodem_protocol.cpp:421-470 | body and checksum of a binary header, of either width, read from any channel content; ZmodemHeaders.BinaryBodyIff says which are taken |
| ZmodemReader.Reader.ReadSubpacket | src/zmodem_protocol.cpp:496-550 | on any channel content, gives the subpacket result of the reference reader; the file grows by the data only if the subpacket is whole |
| ZmodemReader.Reader.ReadToEnd | src/zmodem_protocol.cpp:496-529 | bytes up to the ending letter, stopping at the first that would pass the limit |
| ZmodemReader.Reader.JudgeSubpacket | src/zmodem_protocol.cpp:530-550 | a subpacket is whole exactly if the checksum that follows is that of its bytes and its ending letter |
| ZmodemHeaders.TakenIff | src/zmodem_protocol.cpp:363-481 | on any channel content a header is taken, with what is left after it, if and only if it stands whole where the first header starts, hexadecimal or binary, followed by the checksum of its own type and four bytes |
| ZmodemHeaders.HexBodyIff | src/zmodem_protocol.cpp:394-420 | after its letter, a hex header is taken if and only if the digits that follow, of either case, spell its five bytes and their CRC-16 |
| ZmodemHeaders.BinaryBodyIff | src/zmodem_protocol.cpp:421-470 | after its letter, a binary header is taken if and only if what follows, its escapes undone, is its five bytes and their checksum of that width |
| ZmodemHeaders.HexReadIff | src/zmodem_protocol.cpp:333-348 | bytes are read from hex digits exactly if each pair of digits is that of its byte |
| ZmodemHeaders.HexBurstIsBad | src/zmodem_protocol.cpp:405-418 | after any noise, a hex header changed within two neighbouring bytes of its body, its checksum as sent, is reported bad |
| ZmodemHeaders.BinaryBurstIsBad | src/zmodem_protocol.cpp:444-468 | the same of a binary header: within two bytes, or four under the 32-bit checksum |
| ZmodemHeaders.CarryingTheirOwn | src/zmodem_protocol.cpp:131-199 | the headers sent are exactly those whose checksum is their own |
| ZmodemHeaders.SubpacketIsChecked | src/zmodem_protocol.cpp:530-550 | whatever comes as a whole subpacket was followed by the checksum of its bytes and its ending letter |
| ZmodemRoundTrip.HexHeaderRoundTrip | src/zmodem_protocol.cpp:139-162 | after any noise, reading a hex header gives its type and four bytes and leaves what follows the checksum, for every header |
| ZmodemRoundTrip.BinaryHeaderRoundTrip | src/zmodem_protocol.cpp:165-193 | after any noise, reading a binary header gives it back and leaves exactly what follows it, for every header, checksum width and escape_controls |
| ZmodemRoundTrip.DataSubpacketRoundTrip | src/zmodem_protocol.cpp:197-232 | reading a data subpacket within the size limit gives back its bytes and ending letter and leaves what follows, for all data, widths and escape_controls |
| ZmodemRoundTrip.OversizeSubpacketRefused | src/zmodem_protocol.cpp:496-529 | any non-empty data that would take the file past its limit is refused as too big |
| ZmodemCorruption.ChecksumsDiffer | src/zmodem_protocol.cpp:51-88 | the checksum bytes as sent differ after a change within one burst (two bytes for CRC-16, four for CRC-32) |
| ZmodemCorruption.BurstIsReportedBad | src/zmodem_protocol.cpp:530-547 | a subpacket whose bytes or ending letter were changed within one burst, its checksum as sent, is always reported bad |
| ZmodemCorruption.DataCanSpellHeader | src/zmodem_protocol.cpp:363-481 | what the checksum cannot catch: for every header there is file data which, read where a header is awaited, is that header |
| ZmodemSkipping.SkippedIff | src/zmodem_protocol.cpp:363-481 | where a header is awaited, a data subpacket of any data, checksum width and escaping is passed over, whatever header follows, if and only if its data does not end in an asterisk and neither data nor checksum has an asterisk before a byte that is escaped |
| ZmodemSkipping.PassedOverIff | src/zmodem_protocol.cpp:363-420 | any bytes at all are passed over if and only if nowhere among them a ZDLE comes right after an asterisk |
| ZmodemSkipping.EscapedStarts | src/zmodem_protocol.cpp:117-129 | escaping makes such a pair exactly of an asterisk before a byte that is escaped |
| ZmodemSkipping.NoPadIsNoise | src/zmodem_protocol.cpp:363-420 | a subpacket is mere noise, which every round trip allows before a header, exactly if its data and checksum have no asterisk |
| ZmodemFileInfo.ScansDigits | src/zmodem_protocol.cpp:1030-1037 | a number as printed, after at most one space and before anything but a digit, is scanned back as that number, in decimal and octal |
| ZmodemFileInfo.FileInformationRoundTrip | src/zmodem_protocol.cpp:560-571 | for every file of a batch whose name holds no NUL, the receiver parses base name, size and time out of what the sender composed |
| ZmodemFileInfo.BaseName | src/zmodem_protocol.cpp:1022-1029 | what follows the last slash of either kind: a suffix of the name with neither slash in it |
| ZmodemFileInfo.ParseNamed | src/zmodem_protocol.cpp:1015-1039 | a name that is understood is a file name with no slash of either kind |
| ZmodemSafety.StepKeeps | src/zmodem_protocol.cpp:573-1172 | every step of either end, every garbling, loss, timeout and giving up keeps the joint invariant of sender, receiver and both queues |
| ZmodemSafety.RunKeeps | src/zmodem_protocol.cpp:573-1172 | so does every run |
| ZmodemSafety.ReachableKeeps | src/zmodem_protocol.cpp:573-1172 | the invariant holds in every reachable state, for every batch and limit |
| ZmodemSafety.ReceivingIsPrefix | src/zmodem_protocol.cpp:1041-1164 | in every reachable state the bytes received so far are a prefix of the very file the sender is sending |
| ZmodemSafety.ReceivedAreCopies | src/zmodem_protocol.cpp:1041-1125 | in every reachable state the received files are, in batch order, the accepted files so far, with name and time; each is the first (size modulo 2^32) bytes of its file, and all of it unless the size is 2^32 or more and a multiple of 1024 |
| ZmodemSafety.SuccessMeansAllReceived | src/zmodem_protocol.cpp:578-600 | when either end reports success every file not refused was received, in order |
| ZmodemSafety.SenderStaysInside | src/zmodem_protocol.cpp:740-802 | SendData never starts a block past the end of the file, though CheckForRestart takes a position unclamped |
| ZmodemSenderSteps.RequestIsForThisFile | src/zmodem_protocol.cpp:806-843 | a position request the sender meets while sending or offering was made for the file it is at, and never points past its end |
| ZmodemSenderSteps.AnswerMeansResolved | src/zmodem_protocol.cpp:698-738 | a ZSKIP after an offer or a ZRINIT after ZEOF means the receiver has finished with this file, never an echo of an earlier one |
| ZmodemReceiverSteps.DataIsNext | src/zmodem_protocol.cpp:1129-1164 | whole data read by a receiver taking file data is exactly the next block of its file |
| ZmodemHolding.LengthTells | src/zmodem_protocol.cpp:1097-1108 | the length check at ZEOF accepts only the whole file, unless the size wraps to a block boundary |
| ZmodemSafety.TakenIff | src/zmodem_protocol.cpp:1041-1059 | a file is taken exactly if its base name is a file name and it is within the limit, and then under that name and time |
| ZmodemSafety.UnderstoodAsSent | src/zmodem_protocol.cpp:560-571 | what the receiver parses from an offer is what the sender meant |
| ZmodemRuns.BatchCanArrive | src/zmodem_protocol.cpp:573-1172 | for every batch of files under 2^32 bytes, refused ones among them or not, there is a run, each end making of the line only what is on it, in which all that are taken arrive whole and both ends report success |
| ZmodemRuns.CutShort | src/zmodem_protocol.cpp:740-802 | in every batch, if the first taken file of 2^32 bytes or more is a multiple of 1024 long, there is a run (one lost block) in which its first (size modulo 2^32) bytes are received for it, after the others whole |
| ZmodemRuns.WholeIffEndIsClear | src/zmodem_protocol.cpp:1097-1108 | for every batch: whatever is received is whole in every reachable state, if and only if the first taken file of 2^32 bytes or more, if there is one, is no multiple of 1024 long |
| ZmodemRecovery.RecoversIff | src/zmodem_protocol.cpp:740-802 | in every reachable state with both ends in the data of a taken file under 2^32 bytes, whatever was garbled or lost before: some run in which each end makes of the line only what is on it has the file arrive whole, in its place, if and only if the two are not left waiting for each other (the sender after ZEOF, the receiver inside the file, nothing on its way to it and no request on its way back) |
| ZmodemRecovery.SucceedsUnlessStranded | src/zmodem_protocol.cpp:784-869 | from such a state, if the files after it are refused or under 2^32 bytes, such a run ends with both reporting success; also where the receiver has the last file and its ZRINIT was lost |
| ZmodemRecovery.CanRecover | src/zmodem_protocol.cpp:740-802 | from every such state, stranded or not, some run without garbling, loss or quitting receives the file whole, and ends with both reporting success if the rest can be passed |
| ZmodemRecovery.CanStrand | src/zmodem_protocol.cpp:1059-1108 | any taken file but an empty one can leave both stranded: its first block spoilt and each request for it lost |
| ZmodemRecovery.GoesBackAtOnce | src/zmodem_protocol.cpp:784-843 | in every reachable state, a request heard in mid-stream or after ZEOF has the sender say next that it starts again from there |
| ZmodemKinds.RunIsWell | src/zmodem_protocol.cpp:554-1172 | over every run: what kinds of header and reply can be on the line, and that while the sender waits after ZEOF what comes last on it, if anything, is that ZEOF or spoilt |
| ZmodemArrivals.RestArrives | src/zmodem_protocol.cpp:752-782 | from any position both ends are at, the rest of the file and its end arrive, whatever replies are still on their way |
| ZmodemArrivals.RestOfBatchArrives | src/zmodem_protocol.cpp:592-869 | from between any two files, the rest of the batch can be gone through and closed with both ends successful, late replies and all |
| ZmodemPrograms.ReceiverProgram.Run | src/zmodem_protocol.cpp:901-990 | the nested receive loops end, on any input, with the result, files and replies of the receiver machine |
| ZmodemPrograms.ReceiverProgram.Answer | src/zmodem_protocol.cpp:948-988 | the header switch between files takes the machine step for that header |
| ZmodemPrograms.ReceiverProgram.ReceiveFile | src/zmodem_protocol.cpp:1041-1125 | one offered file, from its information to its end, is the machine from that mode on |
| ZmodemPrograms.ReceiverProgram.AnswerInFile | src/zmodem_protocol.cpp:1081-1124 | the header switch inside a file takes the machine step for that header |
| ZmodemPrograms.ReceiverProgram.ReceiveData | src/zmodem_protocol.cpp:1129-1164 | the subpacket loop is the machine taking file data |
| ZmodemPrograms.ReceiverProgram.TakeBlock | src/zmodem_protocol.cpp:1152-1162 | a whole subpacket grows the file and is answered as its ending letter asks |
| ZmodemPrograms.ReceiverProgram.Push | src/zmodem_protocol.cpp:1107-1108 | the file at hand joins the received ones and the receiver is ready for the next |
| ZmodemPrograms.SenderProgram.Run | src/zmodem_protocol.cpp:578-600 | on any input the sender sends what its machine sends, and returns true exactly if the machine is done; ZmodemRecovery says what the machine makes of garbling and loss |
| ZmodemPrograms.SenderProgram.Begin | src/zmodem_protocol.cpp:620-667 | repeats the opening request until a receiver answers or time is up, as the machine does |
| ZmodemPrograms.SenderProgram.SendFile | src/zmodem_protocol.cpp:698-738 | offer and answers for one file, as the machine does; returns true only when turning to the next file |
| ZmodemPrograms.SenderProgram.SendData | src/zmodem_protocol.cpp:740-802 | data from the place asked for, again from wherever the receiver asks to go back to, as the machine does |
| ZmodemPrograms.SenderProgram.SendBlocks | src/zmodem_protocol.cpp:752-774 | the block loop, as the machine does |
| ZmodemPrograms.SenderProgram.CheckForRestart | src/zmodem_protocol.cpp:806-843 | the look for a request between blocks, which may move the position anywhere, as the machine does |
| ZmodemPrograms.SenderProgram.AwaitEnd | src/zmodem_protocol.cpp:784-801 | after ZEOF: next file, going back (clamped), or giving up, as the machine does, of which ZmodemRecovery.RecoversIff and GoesBackAtOnce say what going back is for |
| ZmodemPrograms.SenderProgram.Finish | src/zmodem_protocol.cpp:845-869 | closing always ends done |
| FrameWriting.AppendStyleChange | src/ui/frame_writer.cpp:45-92 | from any style and link to any other, the terminal ends with the new rendition and link and nothing else changed; nothing is sent if they are the same |
| FrameWriting.AppendWeight | src/ui/frame_writer.cpp:45-92 | bold and dim, which can only be taken back together, end as the new style has them |
| FrameWriting.MoveTo | src/ui/frame_writer.cpp:112-137 | relative or absolute, the cursor ends at the place asked for and nothing else changes |
| FrameWriting.LinkId | src/ui/frame_writer.cpp:139-157 | ids name distinct links; the id given names the link, or, for a new one when all 256 are taken, is 0 |
| FrameTerminal.PutAdvances | src/ui/frame_writer.cpp:248-278 | a wide or narrow character written where the row is right so far leaves it right one cell further, spoiling nothing that will not be rewritten |
| FrameTerminal.NothingSpoilt | src/ui/frame_writer.cpp:209-221 | why: no half of a wide character on the screen is lost unless its other half is about to be rewritten |
| FrameWriting.MarkDirty | src/ui/frame_writer.cpp:195-203 | marks exactly the cells that differ from what is kept |
| FrameWriting.PairWide | src/ui/frame_writer.cpp:209-221 | both halves of every wide character, old or new, end marked alike, and only those beside one are added |
| FrameWriting.RunEnd | src/ui/frame_writer.cpp:231-246 | a run to rewrite has no gap over the limit inside and is followed by one |
| FrameWriting.CleanMatches | src/ui/frame_writer.cpp:195-221 | unmarked cells already look as the frame wants |
| FrameWriting.WriteRun | src/ui/frame_writer.cpp:248-278 | one run of cells: the row is right up to its end and the kept copy follows, but for links there is no room for |
| FrameWriting.UpdateRow | src/ui/frame_writer.cpp:193-280 | one row comes out with the frame's characters and styles, links wrong only where they were and nothing seemed to change; no other row changes; nothing is sent exactly if it was not to be rewritten |
| FrameWriting.WriteCells | src/ui/frame_writer.cpp:190-281 | after all rows every row has come out so, and the cursor is where the last cell written leaves it |
| FrameWriting.FrameWriter.Prepare | src/ui/frame_writer.cpp:166-188 | full, refreshing and incremental frames start from a screen that is erased, distrusted or known |
| FrameWriting.FrameWriter.SetCursor | src/ui/frame_writer.cpp:286-317 | shape and place: the cursor goes where the frame wants it exactly if it is visible and something was sent or the place is new, and stays otherwise; exactly when nothing is sent |
| FrameWriting.FrameWriter.Write | src/ui/frame_writer.cpp:159-318 | for every frame, kind of repaint, earlier frame and terminal: characters and styles come out as the frame has them; links too, after a repaint or refresh or if they were right before; what is kept is the frame if and only if there is room for all links kept and met; where the cursor ends; nothing is sent exactly if nothing changed |
| FrameWriting.RoomForAll | src/ui/frame_writer.cpp:139-157 | while all links in play fit the table none is turned away |
| FrameSequences.WriteAll | src/ui/frame_writer.cpp:159-318 | after any frames of any sizes, each full, refreshed or incremental as it may ask, the screen has the characters and styles of the last; every link met since it was last cleared is kept if and only if they are at most 256, the blank one included, and then what is kept is the last frame and so is the screen, links and all; the cursor is where the frames alone say, unless links have been turned away since a frame with a cursor was repainted or refreshed |
| FrameSequences.Suited | src/ui/frame_writer.cpp:166-188 | a terminal left by the frames so far suits the next, whatever size and kind it is |
| FrameSequences.StandsOn | src/ui/frame_writer.cpp:159-318 | one frame more: what is kept, the screen and the cursor are again as the frames say |
| FrameCursor.RightIff | src/ui/frame_writer.cpp:286-317 | for any frames: a cursor that was ever visible is where it was last wanted if and only if the last frame to move it was one that shows it, or stopped writing just there |
| FrameCursor.LeftAstray | src/ui/frame_writer.cpp:286-317 | a frame with a cursor, one without that writes a cell, and the same cells with the cursor back at its place: it is not there |
| FrameCursor.WriteAstray | src/ui/frame_writer.cpp:286-317 | the writer given these three frames leaves the visible cursor in the third column where the first is wanted |
| FrameLinks.LinksStay | src/ui/frame_writer.cpp:139-157 | whatever was written before: when a frame has more links than can be kept with those met, the same frame with the links there was no room for taken away sends nothing, and the screen still shows them |
| FrameLinks.LinksStayAtFirst | src/ui/frame_writer.cpp:139-157 | so for every first frame of more than 255 links |
| FrameLinks.TooMany | src/ui/frame_writer.cpp:139-157 | there are such frames |
| CheckInKeys.SameCheckInsMeans | src/net_slice.cpp:358-385 | comparing sorted keys says exactly whether both logs hold each key equally often, in any order |
| CheckInKeys.KeyTells | src/net_slice.cpp:334-356 | for fields without the separator two check-ins have one key exactly if they report the same, callsign and name ignoring case |
| CheckInKeys.NumberTells | src/net_slice.cpp:345-356 | numbers in a key never run together: equal texts are equal numbers |
| CheckInKeys.SortSorts | src/net_slice.cpp:358-369 | the keys come out sorted, each as often as it went in |
| CheckInKeys.SortedUnique | src/net_slice.cpp:382-385 | two sorted lists of the same strings are the same list |
| NetMatching.SameSessionIsSymmetric | src/net_slice.cpp:402-419 | being the same session does not depend on which side asks |
| NetMatching.FirstFits | src/net_slice.cpp:670-701 | the session matched is one that fits and is not taken, and there is none only if nothing fits |
| NetMatching.MatchesOnce | src/net_slice.cpp:659-701 | no session here is claimed by two sessions of the file |
| NetMatching.CopyIsSameIff | src/net_slice.cpp:402-419 | what a merge adds for a session is the same session as it, if and only if that one does not end before it starts |
| NetMatching.ClosedApart | src/net_slice.cpp:402-419 | closed sessions of a file that are pairwise different cannot be mistaken for each other's copies |
| NetMatching.MergingIsIdempotent | src/net_slice.cpp:626-704 | after a merge into any net, of sessions that stand apart, a session of the file is found here, if and only if it was found before or does not end before it starts; so all are, if and only if no session added ends before it starts |
| NetMatching.OneSessionIff | src/net_slice.cpp:626-704 | one session merged into an empty net is found the second time if and only if it does not end before it starts |
| NetListing.OneListing | src/db/database.cpp:1680-1697 | by date, start and id, later and greater first, the same sessions are listed in one way only |
| NetListing.PlaceFor | src/db/database.cpp:1680-1697 | and there is a place for one session more |
| NetListing.FirstFitsFind | src/net_slice.cpp:659-701 | taking the first session that fits finds one for each of the file's sessions whenever they can be given one each within a relation that allows the exchange |
| NetListing.TimedIff | src/net_slice.cpp:402-419 | of closed sessions with their times, listed by their starts, all are found if and only if each can be given one here that is the same, no two the same one |
| NetRemerging.EmptyFindsAll | src/net_slice.cpp:626-704 | merged into an empty net, a file is found again whole if none of its sessions ends before it starts: open ones, ones that overlap, ones without times and any dates included |
| NetRemerging.EmptyIff | src/net_slice.cpp:626-704 | and only then, unless one that ends before it starts overlaps what is added for another |
| NetRemerging.TimedFindsAll | src/net_slice.cpp:626-704 | merged into any net, a file is found again whole if the sessions on both sides are closed with their times, no later date starts earlier, and none is added that ends before it starts, however they overlap |
| NetRemerging.TimedMergeIff | src/net_slice.cpp:626-704 | of such sessions it is found whole if and only if each can be given one here that is the same, no two the same one |
| NetRemerging.RemergingFinds | src/net_slice.cpp:626-704 | all of it at once: what merging again finds in an empty net, of timed sessions, and of sessions that stand apart |
| NetLost.UntimedIsLost | src/net_slice.cpp:659-701 | why times are asked for: one session here without a start, four of the file on its date, none ending before it starts, and the third is not found again |
| NetLost.WrongDateIsLost | src/net_slice.cpp:659-701 | why dates are: of two timed sessions the one with the later date starts earlier, and the other is not found again |
| NetLost.ReversedIsFound | src/net_slice.cpp:659-701 | a session that ends before it starts can be found all the same, in what was added for another |
| NetDatabase.Database.CreateNetInstance | src/db/database.hpp:239-241 | a new id, the session listed where its date, start and id put it, its log empty |
| NetDatabase.Database.FillStationBlanks | src/db/database.hpp:214-217 | adds a station or fills in only what is blank |
| NetDatabase.Database.AddNetSavedStationIfMissing | src/db/database.hpp:218-223 | adds the entry only if it is missing, and says whether it did |
| NetDatabase.Database.SetNetMemberId | src/db/database.hpp:114-120 | exactly the entries of that call sign get the member ID |
| NetDatabase.Database.DeleteNetInstance | src/db/database.hpp:286-294 | the session and its log go, nothing else |
| NetMerge.KeysFor | src/net_slice.cpp:433-445 | the remembered keys of a list are the sorted keys of that list, and stay so |
| NetMerge.IsSame | src/net_slice.cpp:677-681 | deciding with remembered keys, and by counts first, is SameSession |
| NetMerge.DescribeCheckInChanges | src/net_slice.cpp:588-624 | with one check-in to a callsign, the three lists name, sorted, exactly the callsigns that changed, are only in the file and are only here |
| NetMerge.DiffersIffDescribed | src/net_slice.cpp:588-624 | with one check-in to a callsign the logs differ exactly if one of the three lists has a callsign in it |
| NetMerge.PlanNetMerge | src/net_slice.cpp:626-704 | each session of the file is new, already here or different exactly as matching and comparing say, none is to be replaced, and new saved stations are counted |
| NetMerge.DeleteReplaced | src/net_slice.cpp:712-723 | exactly the sessions chosen to be replaced go, each with its check-ins |
| NetMerge.MergeSaved | src/net_slice.cpp:762-780 | a blank detail of a saved station gets the first the file tells of it, what was known stays; entries missing come with the remarks and member ID of the file's first record of them, entries here keep theirs, and a call sign without a member ID gets the file's first if its entry is known by then |
| NetMerge.AddSession | src/net_slice.cpp:813-842 | a session is put in as a closed copy under a new id, with its check-ins under that id, renumbered in their order if it was open; every other session and log stays, and each call sign checked in is a known station |
| NetMerge.AddAll | src/net_slice.cpp:805-845 | for every plan: each session that is new or replaced gets one closed copy with its check-ins; what was left here stays, in order |
| NetDetails.StationConflicts | src/net_slice.cpp:516-585 | the conflicts are, call sign by call sign, the stations of the file also here, with the fields filled in on both sides that differ in more than case |
| NetDetails.OneConflictEach | src/net_slice.cpp:516-585 | no call sign has two conflicts, though it may be saved many times |
| NetDetails.NoConflictIff | src/net_slice.cpp:478-495 | a station has none exactly if no field filled in on both sides differs in more than case |
| NetDetails.TakeDetails | src/net_slice.cpp:725-760 | of the stations chosen, each call sign read once, the listed details and no others become the file's; its entries on the net get the file's member ID if that is listed, and otherwise a blank one |
| NetDetails.TakenLeavesNone | src/net_slice.cpp:725-760 | a station taken has no conflict left |
| NetDetails.OnlyListedIff | src/net_slice.cpp:725-760 | nothing but what is listed changes, if and only if the member ID is listed or the net has none for the call sign |
| NetDetails.TakingLosesId | src/net_slice.cpp:752-758 | taking any detail of a station blanks its member ID on the net when the file has none for it, or the same |
| NetMerge.MemberIdIsLost | src/net_slice.cpp:706-853 | a whole merge of a file that tells one detail of one station differently, taken: the station's member ID on the net is gone |
| NetMerge.ApplyNetMerge | src/net_slice.cpp:706-853 | for every plan, replacing included: listed afterwards are the sessions here less exactly those replaced, and one closed copy with its check-ins for each new or replaced one; all other logs stay. Of each station, after the details chosen are taken, what was known stays and what was blank is the first the file tells, from a saved record or that of a station wanted; every saved station and every one checked in to an added session is known; what is gone from the stations is used by nothing, and only after replacing. Saved entries as NetMerge.MergeSaved says |
| NetAccount.NothingVanishes | src/net_slice.cpp:706-853 | for every plan: each session here stays with its check-ins, or has made way for the file's session that replaces it, which is there with its own |
| NetAccount.NothingIsLost | src/net_slice.cpp:706-853 | with nothing replaced every log stays, and so does every detail that was known |
| NetAccount.KnowsMore | src/net_slice.cpp:762-803 | reading the file's records one after the other, those that count and those that do not, keeps a blank detail the first that was told |
| NetAccount.WantedIsLogged | src/net_slice.cpp:781-803 | whoever's details are wanted has checked in to a session that was added |
| NetEntries.MissingComesAsTold | src/net_slice.cpp:762-780 | an entry that was missing has the remarks of the file's first record of it, and its member ID if it has one |
| NetEntries.SavedAsKeeps | src/net_slice.cpp:762-780 | every entry of the file is there; remarks here stay, and member IDs, of which only blank ones change, and only where the file has one |
| NetEntries.IdGiven | src/net_slice.cpp:774-779 | a call sign none of whose entries has a member ID is given the file's on all of them |
| NetMerge.RenumberedIsNumbered | src/db/database.hpp:263-268 | renumbering gives 1, 2, 3 and so on, in the order the check-ins had |
| NetMerge.MergeTwice | src/remote_command.cpp:714-733 | planned, carried out and planned again: the second plan is that of the net as it now is, finds no new saved station, and finds new exactly what merging again does not find, of which NetRemerging.RemergingFinds tells when it is nothing |
| NetSlices.SliceRoundTrip | src/net_slice.cpp:43-117 | gathered, applied to an empty database and gathered again, a net is the same up to a one-to-one renaming of session ids: every session, log, saved entry and station detail, none made up, each check-in with its own session |
| NetSlices.OtherNetsStay | src/net_slice.cpp:66-117 | applied to any database, every other net keeps its row, sessions, logs and saved entries |
| NetSlices.AppliedIsSound | src/net_slice.cpp:66-117 | the database stays sound |
| NetSlices.AppliedTellsLast | src/db/database.hpp:100-106 | applied to any database, each detail of a station is the last the slice tells of it that is not blank, or what was known before; no other station becomes known |
| NetSlices.NetStore.ApplyNetSlice | src/net_slice.cpp:66-117 | one new net, its sessions under new ids, every check-in moved with its session, its call sign in capitals, stations recorded without blanking |
| NetSlices.NetStore.AddAll | src/net_slice.cpp:101-113 | each check-in goes to its session's copy, in order, one of no session nowhere |
| NetSlices.NetStore.GatherNetSlice | src/net_slice.cpp:27-64 | all sessions, check-ins and saved entries of the net, and the details of every other station checked in |
| NetSlices.UnknownCallsigns | src/net_slice.cpp:27-41 | exactly call signs checked in, and every one of those that is not saved |
| NetSlices.NetStore.FindStationsByCallsigns | src/db/database.hpp:123-125 | those of the call signs that are known, as known |
| NetSlices.NetStore.ReadNet | src/net_slice.cpp:148-185 | a file is read if and only if it holds exactly one net |
| NetSlices.WriteAndRead | src/net_slice.cpp:119-185 | written to a file and read back, the same net |
| PostalCodes.ExtractZipCode | src/text_utils.cpp:99-137 | the scan finds the last run of exactly five or nine digits, or else the first whole postal code not touching a letter |
| PostalCodes.ZipCodeIs | src/text_utils.cpp:99-137 | what is extracted is blank, a ZIP, or a postal code in its stored form |
| PostalCodes.ExtractingAgain | src/text_utils.cpp:99-137 | extracting from what was extracted changes nothing |
| PostalCodes.StoringAgain | src/text_utils.cpp:85-97 | normalizing a postal code twice is normalizing it once |
| PostalCodes.IsCanadianPostalCode | src/text_utils.cpp:63-78 | accepts exactly three or six letters and digits in turn, spaces anywhere |
| Frequencies.ParseMhz | src/frequency_rules.cpp:62-93 | accepts exactly up to seven digits and up to six after a point, and gives the hertz they mean |
| Frequencies.IsAmateurFrequency | src/frequency_rules.cpp:95-110 | true exactly for a number in one of the bands |
| Frequencies.FrequencyIs | src/frequency_rules.cpp:127-161 | what is found in free text is blank or an amateur frequency with a point that is there in the text |
| Frequencies.FirstNumberIsFound | src/frequency_rules.cpp:127-161 | an amateur frequency with digits after its point is found if it is the first number of the text, whatever follows |
| Frequencies.MoveBadFrequencyToComments | src/frequency_rules.cpp:266-275 | afterwards the frequency is blank or an amateur one; a bad one is kept in the comments; says whether anything changed |
| Modes.ModeAgain | src/mode_rules.cpp:42-72 | a mode understood is understood as itself |
| NetFields.NormalAgain | src/net_slice.cpp:70-83 | a net whose ZIP, frequency and mode were put right stays as it is, comments included |
| NetFields.SecondFileChangesNothing | src/net_slice.cpp:66-117 | so only the first trip of a net through a file changes its row |
| UpstreamChoice.FindNamed | src/remote_command.cpp:451-461 | a net of that name, or none has it |
| UpstreamChoice.FirstAlike | src/remote_command.cpp:425-438 | of the nets that look alike and may be logged, one that no other comes before by name; none only if there is none |
| UpstreamChoice.Choose | src/remote_command.cpp:353-448 | every answer is fair: a net is chosen, asked about, missed or refused only with the reason the rules give, and a net of exactly that name is never passed over |
| UpstreamChoice.ChooseConfirmed | src/remote_command.cpp:389-417 | a confirmed net is used only if it has the confirmed name, may be logged, and has or resembles the name in the file |
| UpstreamProtocol.StepKeeps | src/remote_command.cpp:482-510 | every step of every client, command, crash, lost reply, cleared upload and locally logged session keeps the invariant |
| UpstreamProtocol.RunKeeps | src/remote_command.cpp:764-830 | so does every interleaving of them |
| UpstreamProtocol.PushedNeverRepeats | src/remote_command.cpp:482-510 | over every interleaving, uploads of different sessions under one name included, a net with two sessions of one date and start had the later one logged there, never pushed |
| UpstreamProtocol.ImportedOnce | src/remote_command.cpp:482-510 | two commands never both answer imported for one session and one net |
| UpstreamProtocol.PushedIsThere | src/upstream_push.cpp:331-419 | a client told its session was pushed has it in the net it was told of, retries and lost replies included, if every client whose upload has the same name pushes a session of the same date and start |
| UpstreamProtocol.PushedIsKept | src/remote_command.cpp:482-510 | any client told so was told of a net that has a session pushed under its upload's name |
| UpstreamProtocol.MisledRun | src/ui/app_state.cpp:1426-1484 | two sessions of one net and date, pushed as one upstream user: the second upload replaces the first, and the first client is told its session was pushed when the other was |
| UpstreamProtocol.MisledIffPlaceIsShared | src/upstream_push.cpp:331-419 | there is a run that tells a client falsely, if and only if some client pushes a session of another date or start under the same upload name |
| UpstreamProtocol.PushGoesThrough | src/upstream_push.cpp:383-419 | with nothing in the way a push into a net of that name ends with the session there and the client told so |
| UpstreamConfirming.AnyPushGoesThrough | src/upstream_push.cpp:383-419 | from any state with the client free and nobody importing, for any net that may take the session under the confirmation given, if any, and lacks it: one push can put it there and have the client told so. Confirmed, it copies nothing if the upload is still there, and the file once more if it has gone |
| UpstreamConfirming.CopiesOnceAPush | src/upstream_push.cpp:389-418 | over every run a client copies its file at most once each time it pushes |
| UpstreamConfirming.AskedThenConfirmed | src/upstream_push.cpp:389-407 | a net named alike is asked about with nothing imported, and the confirmation then imports what is already there, with no copy more |
| UpstreamConfirming.AskedIsKept | src/remote_command.cpp:764-800 | over every run, the upload an import asked about is still there unless it was cleared as an old one or by another import of it |
| UpstreamConfirming.PushAgainIsHarmless | src/remote_command.cpp:482-498 | where the net has the session by now, pushing again ends with the client told so and nothing added |
| CommandText.SplitCommandLine | src/remote_command.cpp:49-134 | the loop with its flags splits as the word automaton does, errors included |
| CommandText.Quoted | src/upstream_push.cpp:65-86 | quotes, escaping quote and backslash, control characters as spaces |
| CommandText.QuotedIsOneWord | src/upstream_push.cpp:65-86 | quoted, any text at all is one word when split: itself, control characters as spaces |
| CommandText.OnlyPlainIsItself | src/remote_command.cpp:49-134 | a text unquoted is split into just itself if and only if it is a plain word |
| CommandText.ParseRemoteCommand | src/remote_command.cpp:136-234 | words become the command, confirmation and file the grammar gives |
| CommandText.ImportCommand | src/upstream_push.cpp:108-118 | the command built is understood upstream as meant, whatever the net is called, if and only if the file's name is a plain word and no option |
| CommandText.DiscardCommand | src/upstream_push.cpp:120-125 | understood as meant if and only if the file's name is a plain word |
| ResultText.MakeResult | src/remote_command.cpp:255-297 | prints a line for each field the result has, in order, control characters as spaces |
| ResultText.ParseImportReply | src/upstream_push.cpp:127-235 | on any output at all, the line loop reads what reading the lines one after another gives |
| ResultText.NumberComesBack | src/upstream_push.cpp:203-228 | a number printed is read back exactly if it has no more digits than the reader takes |
| ResultText.LineRead | src/upstream_push.cpp:127-235 | a line printed for a field is read as that field and its value |
| ResultText.ResultRoundTrip | src/upstream_push.cpp:127-235 | every result printed is read back as sent, if and only if its numbers are short enough and a question names its net |
| UploadStore.UploadLimit | src/sftp_paths.cpp:129-136 | a limit never takes /imports over 100 MB and is cut only when it would |
| UploadStore.OverlayMore | src/sftp_server.cpp:537-553 | writing two pieces in turn is writing both at once |
| UploadStore.LastWriteWins | src/sftp_server.cpp:504-556 | in a file without holes every byte was written and is what was written there last |
| UploadStore.NothingMissing | src/sftp_server.cpp:504-556 | and no byte written is missing from it |
| UploadStore.FileSystem.BytesUsed | src/sftp_paths.cpp:109-127 | the total size of all files but one |
| UploadStore.TotalWithout | src/sftp_paths.cpp:109-127 | a file counts in the total once, whatever the order |
| SftpPaths.ResolveSftpPath | src/sftp_paths.cpp:16-78 | the loop resolves every text as walking its parts does |
| SftpPaths.NothingElseIsServed | src/sftp_paths.cpp:16-78 | no text leads anywhere but the root, the two folders and plain names in them |
| SftpPaths.PathTextLeadsBack | src/sftp_paths.cpp:80-93 | what is served is found again under the name it goes by |
| SftpPaths.UpUndoesDown | src/sftp_paths.cpp:16-78 | going into a folder and up again, anywhere in a path, is staying |
| SftpPaths.SanitizeFilenameComponent | src/file_export.cpp:232-258 | the result is never empty, safe, not begun or ended by an underscore, and the text itself exactly if that was so already |
| SftpPaths.IsAllowedImportName | src/sftp_paths.cpp:100-108 | true exactly for safe names that are sanitized already, start with no dot and end in one of the two extensions |
| SftpPaths.UploadsAreServed | src/sftp_paths.cpp:100-108 | every upload name can be named again by a path |
| SftpUploads.SftpSession.OpenForWriting | src/sftp_server.cpp:414-474 | refused for the first reason that holds, in the program's order; a handle comes with an empty hidden file and the limit that fits then; otherwise nothing changes |
| SftpUploads.SftpSession.Take | src/sftp_server.cpp:230-242 | a handle, or the upload's file is gone again |
| SftpUploads.SftpSession.Write | src/sftp_server.cpp:504-556 | within the written part and the limit the data is laid over the file; anything else fails the upload or is refused; no other file changes |
| SftpUploads.SftpSession.WriteAll | src/sftp_server.cpp:537-553 | through short and interrupted writes, done means all of it is there |
| SftpUploads.SftpSession.Close | src/sftp_server.cpp:558-592 | an unfailed upload takes its name with exactly the bytes written; otherwise nothing is left of it |
| SftpUploads.SftpSession.Remove | src/sftp_server.cpp:594-619 | removes only an allowed name from a writable session |
| SftpUploads.SftpSession.End | src/sftp_server.cpp:93-99 | what was still open leaves nothing behind and no other file changes |
| SftpUploads.SftpSession.CloseFile | src/sftp_server.cpp:650-674 | one handle and its hidden file go |
| SftpRuns.Serve | src/sftp_server.cpp:102-145 | over any requests in any order: every reply has its reason; what is saved is, in order, each upload whose close was answered Ok, made of just its writes answered Ok, without holes and within its limit, and no hidden file outlives the session, whatever else happens in /imports; if nothing else does, an upload is refused as taken exactly if its name is, and for want of room if the files leave none, and only then while no other is open, and /imports ends as requests and replies say, and within 100 MB if uploads came one at a time; if no operation on a file fails, no write, save or removal does |
| SftpRuns.RequestFollows | src/sftp_server.cpp:102-145 | one request: what the client can tell of its uploads and of the files from the reply is so |
| SftpRuns.StaysBounded | src/sftp_paths.cpp:129-136 | if the files, with any uploads still open grown to their limits in place of those they replace, fit 100 MB, they still do after any request, but for an upload begun beside another that can still be saved |
| SftpRuns.FillUp | src/sftp_server.cpp:504-592 | and otherwise they need not: uploads open under different names, written to their limits and closed, bring /imports to just that size |
| SftpRuns.TwoAtOnce | src/sftp_server.cpp:447-452 | with four uploads of 19 MB there, two more begun before either is written to end with 124 MB in /imports |
| SftpSaving.Save | src/sftp_server.cpp:414-592 | an upload sent in order in any pieces, beside any others, is saved just as it was sent, if and only if there is room for any of it and for all of it; otherwise nothing is left of it |
| SftpSaving.SendAll | src/sftp_server.cpp:504-556 | its writes: all there so far, or spoilt from the first that passes the limit |
| SftpUploads.TakeKeeps | src/sftp_server.cpp:230-242 | a new upload's file is its own and the others stay sound |
| SftpUploads.WriteKeeps | src/sftp_server.cpp:504-556 | writing one upload leaves every other as it was |
| SftpUploads.CloseKeeps | src/sftp_server.cpp:558-592 | closing one leaves every other as it was |
| ScpStream.ParseScpFileLine | src/scp_server.cpp:103-146 | accepts exactly a C, four octal digits, a size of 1 to 18 digits and a single plain name, and gives both |
| ScpTransfer.Transfer.ReadLine | src/scp_server.cpp:385-402 | a line is read exactly if the channel has a newline within 1,024 bytes, and is all up to it |
| ScpTransfer.Transfer.ReadAck | src/scp_server.cpp:406-421 | true exactly for a 0; otherwise the transfer has failed or the channel ended |
| ScpTransfer.Transfer.ReceiveFile | src/scp_server.cpp:302-381 | one file is saved as it came, under an allowed name, within the room there was; or nothing changes; if nothing fails it is saved exactly if it is wanted, fits, comes whole and is confirmed |
| ScpTransfer.Transfer.Receive | src/scp_server.cpp:160-222 | over any input: /imports is what it was with the saved files put in, each as it arrived; no hidden file stays; it never goes over 100 MB; with exit status 0 the saved files are those the stream offers, in order, but for a last one if and only if the stream ends right after its bytes; if nothing fails, the exit status is 0 if and only if the stream is smooth |
| ScpTransfer.FileTaken | src/scp_server.cpp:302-381 | an announced file taken up keeps the transfer's account of what was offered, saved and is still to come |
| ScpTransfer.BareIsSmooth | src/scp_server.cpp:160-222 | a line for a file of one byte and the byte: a smooth stream that offers one file and ends right after its bytes |
| ScpTransfer.SendBare | src/scp_server.cpp:160-222 | nothing fails, the exit status is 0, and the one file sent is not there |
| ScpTransfer.SavingKeepsRoom | src/sftp_paths.cpp:129-136 | a file within the limit leaves /imports within its own |
| ScpTransfer.Transfer.Send | src/scp_server.cpp:224-299 | exit status 0 means exactly the file's header, bytes and final 0 were sent; if nothing fails, it is 0 if and only if there is such a file and the client answers each of the three or four times with a 0 |
| ScpStream.SentArrives | src/scp_server.cpp:224-299 | what one side sends of a file is what the other takes it for |
| WindowsArguments.WindowsCommandLine | src/run_program.cpp:38-87 | splitting the line by the rules of CommandLineToArgvW gives back the program and every argument, if and only if the program's name survives (no quote in it, and no backslash at its end if it needs quotes) |
| WindowsArguments.AppendQuoted | src/run_program.cpp:47-84 | the loop with its backslash counter appends the quoted argument |
| WindowsArguments.ArgumentRead | src/run_program.cpp:47-84 | any argument at all, quoted, is read as itself: empty, with quotes, spaces and runs of backslashes anywhere |
| WindowsArguments.NameRead | src/run_program.cpp:38-87 | the program's name, read by its own rules, is right exactly if it survives |
| WindowsArguments.AllRead | src/run_program.cpp:38-87 | all of them together |
| Wildcards.WildcardSpan | src/text_utils.cpp:197-233 | the least width over every way the letters fit in order, anchored or not, and -1 exactly if there is none: stopping early loses nothing |
| Wildcards.FitFrom | src/text_utils.cpp:197-233 | each letter at its first place gives the earliest possible end; failing, no later start can succeed |
| Wildcards.WildcardLikePattern | src/text_utils.cpp:186-195 | a callsign is LIKE the pattern exactly if the letters typed fit in it |
| Wildcards.AnchoredMeans | src/text_utils.cpp:186-195 | anchored: the first letter first, the rest in order |
| Wildcards.AnywhereMeans | src/text_utils.cpp:186-195 | not anchored: in order anywhere |
| Wildcards.NormalizeCallsign | src/text_utils.cpp:139-156 | upper case letters, digits and slashes, nothing else, in order |
| Typos.TypoDistance | src/text_utils.cpp:368-392 | the table gives the cost of the cheapest way to edit one word into the other by changing, dropping, inserting and swapping neighbours |
| Typos.FillRow | src/text_utils.cpp:379-390 | a row of the table from the two before it |
| Typos.Cell | src/text_utils.cpp:379-390 | no edit script is cheaper than the best of its three or four neighbours, and one that cheap exists |
| Typos.DistanceIsSymmetric | src/text_utils.cpp:368-392 | the distance does not depend on which word is edited |
| Typos.WordsLookAlike | src/text_utils.cpp:396-421 | true exactly by the rule of containment, length and allowed typos |
| Typos.LookAlikeIsSymmetric | src/text_utils.cpp:396-421 | neither word comes first |
| NetNames.NormalizePlaceName | src/text_utils.cpp:278-302 | letters unaccented and upper-cased, the rest as it is |
| NetNames.NameWords | src/text_utils.cpp:307-340 | the runs of letters and digits, abbreviations spelled out |
| NetNames.NetNameKey | src/text_utils.cpp:467-486 | upper case, unpadded, one space for a run |
| NetNames.KeyHasTheWords | src/text_utils.cpp:467-486 | a name and its key have the same words, accents and runs of spaces at any place |
| NetNames.SameNamesHaveTheSameWords | src/text_utils.cpp:488-491 | names that are the same have the same words |
| NetNames.NetNamesLookAlike | src/text_utils.cpp:493-560 | true exactly if the names share words, run together, look alike, or one is the initials of the other |
| NetNames.LookingAlikeIsSymmetric | src/text_utils.cpp:493-560 | for every pair of names and every set of common words |
| NetNames.SameNamesLookAlike | src/text_utils.cpp:488-560 | names that are the same look alike, whatever words are common |
| NetNames.HasAcronymOf | src/text_utils.cpp:441-453 | true exactly if a word is one of the initials of the other name |
| ListLayout.LayOutList | src/ui/list_columns.cpp:59-141 | what comes out has its columns added and grown in order: none is added before one of an earlier priority, or further left of the same, the first left out did not fit when its turn came, what could still have grown left no room for anything later, and the gap is as wide as fits; with the room of 80 columns or less, only what is always shown |
| ListOrder.LaidOutWell | src/ui/list_columns.cpp:19-141 | the same of the layout that sorting the steps and taking them in turn gives, told of its widths alone |
| ListOrder.AddsInOrder | src/ui/list_columns.cpp:19-26 | no column is shown that was added while one of an earlier priority was not, ties going by place; those a neighbour brings aside |
| ListOrder.LeftOutDidNotFit | src/ui/list_columns.cpp:86-120 | the first column left out did not fit, with its partner if it has one, in the room left when just the earlier ones were shown |
| ListOrder.GrowsInOrder | src/ui/list_columns.cpp:121-126 | where a column could have grown further, no room is left and nothing that comes later has grown or been added |
| ListOrder.WidenedIs | src/ui/list_columns.cpp:128-139 | the gap is the widest, up to its limit, that fits, and only widens if everything is shown |
| ListLayout.TakeStep | src/ui/list_columns.cpp:89-126 | one column added, with its partner if it must, or grown, or passed over |
| ListLayout.WidenGaps | src/ui/list_columns.cpp:128-139 | the gap widens while there is room, up to its limit |
| ListLayout.UsedWidth | src/ui/list_columns.cpp:30-43 | widths of the shown columns and the gaps between them |
| ListColumns.ListFits | src/ui/list_columns.cpp:59-141 | the list is never wider than there is room for, gaps and all, unless what is always shown is |
| ListColumns.MoreRoomShowsMore | src/ui/list_columns.cpp:59-141 | every column shown at one width is shown at every greater one, whatever the columns |
| ListColumns.PairsAreTogether | src/ui/list_columns.cpp:97-120 | a column added with the next: exactly when both are shown or neither, always-shown ones and chained pairs included |
| UlsImport.UlsLicenses.Store | src/uls_import.cpp:472-487 | the text is kept at the end, cut to its limit; the reference is its place modulo 2^32 and reads it if offsets fit 32 bits |
| UlsImport.WrapsAround | src/uls_import.cpp:472-487 | with 2^32 characters stored, a reference to more text is one to what was stored first |
| UlsImport.UlsLicenses.StoreTooMuch | src/uls_import.cpp:472-487 | a run of Store on a new buffer that comes to it: the last text stored is read as the first |
| UlsImport.ReadStays | src/uls_import.cpp:434-492 | a record reads as it did whatever text is stored after it |
| UlsImport.UlsLicenses.Find | src/uls_import.cpp:494-504 | the search by halves finds the first active license with the id, and none exactly if there is none |
| UlsImport.PlaceIsFirst | src/uls_import.cpp:494-504 | why: in the sorted index the first place not below the id is the first license with it |
| UlsImport.UlsLicenses.HandleHd | src/uls_import.cpp:507-527 | one more active license, and the join still shows |
| UlsImport.UlsLicenses.HandleEn | src/uls_import.cpp:533-554 | the join still shows with one more entity line |
| UlsImport.UlsLicenses.HandleAm | src/uls_import.cpp:560-577 | the join still shows with one more license class line |
| UlsImport.EnShows | src/uls_import.cpp:533-554 | an entity line changes exactly the one license found, text of all others standing |
| UlsImport.UlsLicenses.ReadFiles | src/uls_import.cpp:592-606 | after the three files each active license shows its own HD line and the last EN and AM line with its id |
| UlsImport.JoinedIff | src/uls_import.cpp:494-577 | all active licenses are imported with all the lines of their id, if and only if no EN or AM line that is the last with its id, and says something, has an id that two active licenses share |
| UlsImport.SecondIsBare | src/uls_import.cpp:494-554 | two active licenses with one id and a line naming their holder: the second is imported without a name |
| UlsImport.WriteBatches | src/uls_import.cpp:615-655 | all stations, in order and each once, however the batches fall; a finished import leaves just them, a stopped one those of the batches written over what was there |
| UlsImport.OldRowsGo | src/uls_import.cpp:648-655 | after deleting the callsigns not in the file nothing older is left |
| UlsImport.ParseAndImport | src/uls_import.cpp:583-659 | an import that goes through leaves the table holding the plain join of the three files and nothing else, and one that is stopped some whole batches of it over what was there, if their text fits 32-bit offsets; with no active license nothing changes |
| ZipArchive.WriteZipArchive | src/zip_write.cpp:70-154 | the bytes appended are the local headers and data, directory and end record the lemmas are about |
| ZipArchive.WriteDirectory | src/zip_write.cpp:125-145 | the directory loop |
| ZipArchive.ReadCentralDirectory | src/zip_extract.cpp:67-165 | on any file, the backward scan and the entry loop give the reference listing, errors included |
| ZipArchive.FindEnd | src/zip_extract.cpp:88-98 | the last end record in reach whose comment ends with the file |
| ZipArchive.CentralRoundTrip | src/zip_extract.cpp:131-162 | a directory entry is parsed as it was written, wherever it stands |
| ZipArchive.DirectoryRoundTrip | src/zip_extract.cpp:67-165 | within the limits of the format every entry written is listed as it was, in order |
| ZipArchive.LocalTellsTheSame | src/zip_write.cpp:107-119 | within the limits of the format: where a listed entry says its file is, a local header tells the same flags, method, time, checksum, sizes and name of it |
| ZipArchive.CentralTimes | src/zip_write.cpp:125-135 | the directory gives the same time and date |
| ZipExtraction.InflateData | src/zip_extract.cpp:207-281 | the loop over both buffers, with any inflater that keeps the promise of zlib, gives what reading the stream a buffer at a time should: its data, or that it is cut short or cannot be decoded |
| ZipExtraction.StreamedIff | src/zip_extract.cpp:207-281 | a stream comes out whole if and only if it ends and no 64 KB of it before its end give a whole number of 64 KB; one of which some do does not come out at all |
| ZipExtraction.CopyData | src/zip_extract.cpp:226-276 | a stored entry is copied whole if all of it is there |
| ZipExtraction.ExtractEntry | src/zip_extract.cpp:169-298 | encrypted, of another method, without its header, cut short, undecodable or failing its checksum, each for its reason; otherwise the data |
| ZipExtraction.FileRoundTrip | src/zip_extract.cpp:169-298 | every file comes out of the archive as it went in, given that inflating undoes deflating, if and only if no 64 KB of it deflated give a whole number of 64 KB before the end; otherwise it cannot be decoded |
| ZipExtraction.SmallRoundTrip | src/zip_extract.cpp:169-298 | a file that deflates to 64 KB or less always comes out as it went in |
| ZipExtraction.FullBufferIsLost | src/zip_extract.cpp:216-263 | there are such streams: one that gives just what a buffer holds, and ends after, is not extracted |
| ZipExtraction.SomeInflaterObeys | src/zip_extract.cpp:249-263 | and for every coding an inflater that keeps the promise |
| ZipExtraction.ExtractOne | src/zip_extract.cpp:316-336 | of the entries that go by a name, the first is extracted; none is found exactly if there is none |
| ZipExtraction.ExtractZipEntries | src/zip_extract.cpp:300-345 | the files asked for are written in order up to the first that is not there or cannot be extracted, and all of them only if there is none such |

## Left out

- ZmodemSafety.ReachableKeeps: the line garbles, loses replies and lets headers be skipped, but deletes no data silently and shows no header inside file data while one is awaited; `ZmodemSkipping.SkippedIff` says of which data that is so.
- ZmodemRuns.WholeIffEndIsClear: each file's information fits the receiver's limit for it, and a file the receiver accepts by its announced size is no longer than its limit, as the sender's own offers are.
- ZmodemPrograms.ReceiverProgram.Run: clocks are events ("waited", "late"), a failed write to the channel is a step that gives up, and the receiver's advertised abilities are fixed; error texts are not kept.
- ZmodemFileInfo.FileInformationRoundTrip: `sscanf` is modelled for what the sender writes and for other digits and spaces, not for signs or numbers past 64 bits.
- ZmodemRecovery.RecoversIff: of the time in a file's data. Before it, the sender does not repeat an offer after ZNAK, so an offer lost is not made good; and under endless garbling nothing arrives.
- FrameWriting.FrameWriter.Write: a cell is its text, a width of 0, 1 or 2, a style and a link; frames have an empty cell after each wide character, nowhere else, and none in the last column. FTXUI, mouse input and terminals that measure characters otherwise are not part of this model.
- FrameSequences.WriteAll: a terminal made another size shows anything until the next frame, which repaints it; where the cursor ends is not stated once a frame without one was written while links were being turned away.
- NetMerge.DescribeCheckInChanges: says nothing when a callsign checked in twice in one log; the lists then cannot tell the check-ins apart.
- NetMerge.MergeTwice: merges without replacing. After replacing, a deleted session may have been the one another session of the file would match. Into a net that has sessions, with some on either side open or without times, only what stands apart is told.
- NetMerge.ApplyNetMerge: counts of what was added or replaced are not kept.
- NetDetails.StationConflicts: of entries with different member IDs under one call sign any may be the one shown; the file's stations come sorted by call sign, those alike in any order.
- NetSlices.SliceRoundTrip: entry names and call signs are kept in upper case only, and the field normalizations are any function; `NetFields` gives the one the program uses. SQLite, schema versions and file errors are not part of this model.
- NetSlices.NetStore.ApplyNetSlice: one session's slice (`ApplySessionSlice`, `ApplyAdHocSessionSlice`) is modelled only as the step that logs it in `UpstreamProtocol`.
- UpstreamProtocol.PushedNeverRepeats: names alike and permissions are any rules, sessions are not deleted upstream while pushes run, and of a session what travels is its date and start; of its upload's name only which others have the same.
- Pushing whole nets (`NetImport`), exporting and listing commands: the merge itself is modelled, their messages are not.
- CommandText.ParseRemoteCommand: message texts of errors are not kept.
- ResultText.MakeResult: keys the reader does not know are not printed by the commands modelled.
- SftpRuns.Serve: reading files, listing folders, attributes and reply texts are left out; requests of one session are handled one at a time, as the program does, while anything else may happen in the folder between them.
- SftpRuns.StaysBounded: the session's own hidden files count only once they take their names; until then they are there beside the files they replace.
- ScpTransfer.Transfer.Receive: nothing else writes to `/imports` during the transfer; message texts are any bytes.
- Wildcards.WildcardLikePattern: LIKE is modelled for the two things the pattern uses, plain characters and `%`.
- NetNames.NetNamesLookAlike: which words are common is any table; spelled-out abbreviations are the program's.
- ListLayout.LayOutList: a column's own two steps, when they have one priority, are taken in one of the orders `std::sort` may give; `ListColumns.ListFits`, `MoreRoomShowsMore` and `PairsAreTogether` hold for every order of the steps. Row and heading text is left out.
- UlsImport.ParseAndImport: lines come split into fields and the table of class codes is any function; progress reports and the time of an import are left out.
- ZipExtraction.FileRoundTrip: zlib is any coding and any inflater that keep what its manual promises of them; times are given as the two numbers stored.
- ZipExtraction.ExtractZipEntries: opening and writing the files taken out does not fail.
- Frequencies.IsAmateurFrequency: offsets and tones are left out.
- Base64 and the key grammar, the Esc splitter, the key bar's rows and ADIF framing: smaller results of the same kind.
- Sockets, libssh, libcurl, spawning processes, the shared database's locking beyond one writer at a time, geography and county shares: foreign calls or floating point.
