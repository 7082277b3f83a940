# Furrent in Dafny

A verification model of Furrent, a small BitTorrent client. It covers the four
parts in which mistakes would be hard to see by reading: the bencode parser and
printer, the layout of a torrent's bytes into pieces and files, the download
pipeline with the wire format below it, and the scheduler that many threads
share.

`dafny verify dfyconfig.toml` checks the whole project. Automatic induction is
switched off on every lemma, so each inductive step is written out.

## What is modelled

**Bencode** (`Decimal`, `Bencode`, `Spelling`, `Scan`, `Parser`,
`BencodeTheorems`, `BencodeTexts`, `Metainfo`, `MetainfoTexts`). `Spelling` is the
grammar of accepted texts as concrete syntax trees, with the text, the value and
the canonical form of a tree defined without reference to any parser. `Scan` says
what the parser reads at a cursor, including every error and the cursor it leaves.
`Parser` is the parser object with its cursor, loops and map. `BencodeTexts` states
what the order of keys decides and what particular texts come to. `Metainfo` builds
the torrent descriptor and the bytes whose SHA1 names the torrent, and
`MetainfoTexts` writes a torrent as a metainfo text that is read back.

**Layout and saving** (`Layout`, `Save`). The files are one stream of bytes; the
carving loops of `Torrent::pieces` cut it into pieces and subpieces. `Save` writes
pieces to files the way `PieceTask::save` does.

**Download** (`Octets`, `Bitfield`, `Wire`, `Download`, `Deliveries`, `Downloader`).
Integers, messages and frames on the wire; the packed bitfield; one call of
`try_download` as a function of everything the peer and the socket may do; and the
downloader object that is proved to behave so.

**Threads** (`WorkQueue`, `WakeUp`, `Scheduler`, `SchedulerInvariant`,
`SchedulerDraws`, `SchedulerTheorems`, `SchedulerProgress`, `SchedulerSaves`,
`SchedulerScenes`). The policy queue; the condition variables of the shared queue as
a transition system; and the scheduler as a transition system in which each mutex
section, each atomic operation and each access to the counter of torrent identifiers
is one step. `SchedulerProgress` states who is blocked and that the lock comes free.

**The whole** (`EndToEnd`). From the bytes of a peer to the files of a completed
torrent.

## Where the code departs from its evident intent

The model follows the code.

- A bare `0:` is refused because fewer than three characters remain, although the
  printer writes it (src/bencode/bencode_parser.cpp:102). `RoundTrip` states the
  exact exception.
- A zero length without a colon at the end of the text succeeds with the cursor
  one past the end (src/bencode/bencode_parser.cpp:107-117). `PastEndExact` states
  exactly when, and `ThreeZeros` is such a text. Reads at or past the end count as
  an unexpected character.
- Leading zeros, `-00` and equal adjacent keys are accepted and the first of equal
  keys wins; integers outside `int64_t` throw. `DecodeNormalises` and
  `InfoBytesExact` say exactly when this matters.
- `Torrent::pieces` reads the length of a file that does not exist: of the first
  when there are no files (src/torrent.cpp:185), and of the one after the last
  (src/torrent.cpp:215). In the model such a length is zero and the generator
  reports the read. `LeavesFilesExact` states exactly which descriptors cause it,
  and `TwoFullFiles` is one.
- Empty files and exhausted ones get empty subpieces (src/torrent.cpp:205-211).
  `EmptySubpieceExact` states exactly when.
- `save()` writes the whole piece for every subpiece (src/furrent.cpp:62-66).
  `SaveAllExact` states exactly when the files come out right, and
  `TwoFilesSpoiled` gives the smallest torrent for which they do not.
- A payload on messages 0 to 3 is ignored because line 75 of
  src/download/message.cpp lacks its `return`. `RecvInverse` states the exact
  consequence, and `ChokeWithPayload` is such a frame.
- `mutate` and `begin_skip_waiting` do not notify threads waiting for an empty queue
  (src/mt/sharing_queue.inl:65-81). `StepExactEmpty` states exactly when such a
  thread is stranded, and `StrandedWaiter` shows one.
- A block outside the piece buffer is copied all the same
  (src/download/downloader.cpp:288), and a bitfield shorter than the piece count is
  read and written outside its storage (src/download/bitfield.cpp:32-50). A run that
  does either ends as `Overrun`; `OverrunExact` states exactly when, and
  `OversizedBlock` is such a run.
- A repeated block counts as a new one (src/download/downloader.cpp:290), so a
  truthful peer can end the loop before all blocks came. `RepeatsExact` states
  exactly when the piece is right all the same, and `RepeatedBlock` is a run in
  which it is not.
- The LIFO policy takes the oldest item and the FIFO policy the newest
  (src/policy/policy.inl:5-13). The workers use LIFO (src/furrent.cpp:165), so the
  queue serves first what came first, as `FirstComeFirstServed` states.
- `add_torrent` draws its identifier without a lock (src/furrent.cpp:308-309), so two
  clients can draw the same one, and the second then enqueues every piece of the
  first one's torrent again. `DrawsExact` states exactly when identifiers repeat,
  `AddExact` exactly when adding doubles a piece, and `SharedIdentifier` is such a
  run. What is stated of reachable states is stated for every run that adds no
  torrent again; `SeparateRuns` shows that runs whose draws do not overlap are such.
- `remove_torrent` reads the state and writes it later (src/furrent.cpp:375-378), so
  Completed is not final. `CompletedLost` states exactly what overwrites it, and
  `StoppedAfterCompleted` is such a run.

## Model

| member | source | states |
|---|---|---|
| Decimal.IntegerRoundTrip | src/bencode/bencode_value.cpp:14-17 | reading a printed integer gives the integer back, and printing never writes a redundant zero or a negative zero |
| Decimal.NumeralNormal | src/bencode/bencode_parser.cpp:88-97 | printing the value of an accepted numeral gives the numeral back exactly when it is minimal, and something shorter otherwise |
| Decimal.NaturalNormal | src/bencode/bencode_parser.cpp:112-119 | the same for string lengths |
| Decimal.TenDigits | src/bencode/bencode_value.cpp:14-17 | the ten digits in their places, and which way the digits of a numeral count |
| Bencode.ToString | src/bencode/bencode_value.cpp:14-78 | the appending printer writes the encoding of the value |
| Bencode.ListToString | src/bencode/bencode_value.cpp:44-52 | the list loop writes the encodings of the items in order between its brackets |
| Bencode.DictToString | src/bencode/bencode_value.cpp:67-78 | the dictionary loop writes size-prefixed keys and values in key order |
| Bencode.Lookup | src/torrent.cpp:43-54 | a lookup finds a field with the key, and finds none exactly when no field has it |
| Bencode.LessExact | src/bencode/bencode_parser.cpp:207-214 | one key is below another exactly if it is a proper prefix of it or smaller at the first character in which they differ |
| Spelling.PlainSpells | src/bencode/bencode_value.cpp:14-78 | the plain tree of a value is spelled by the printer |
| Spelling.PlainMeans | src/bencode/bencode_value.cpp:14-78 | that plain tree is grammatical and canonical, and means the value it was made from |
| Spelling.MeaningValid | src/bencode/bencode_parser.cpp:68-218 | what a grammatical text means fits the C++ types, with map keys strictly increasing |
| Spelling.PrintNormalises | src/bencode/bencode_value.cpp:14-78 | printing what a text means is never longer than the text, and is the text exactly when it is canonical |
| Scan.Scan | src/bencode/bencode_parser.cpp:52-66 | on every text the recursion ends, a success strictly advances the cursor, and the cursor never passes size plus one |
| Scan.ScanSound | src/bencode/bencode_parser.cpp:52-218 | a success inside the text consumed exactly the spelling of a well-formed tree |
| Scan.ScanComplete | src/bencode/bencode_parser.cpp:52-218 | every well-formed spelling is recognised wherever it stands, a string if three characters remain |
| Scan.PastEndExact | src/bencode/bencode_parser.cpp:100-131 | a success leaves the cursor past the end if and only if three or more characters remain and all are zeros |
| Scan.ThreeZeros | src/bencode/bencode_parser.cpp:100-131 | three zeros and nothing else leave the cursor past the end |
| Parser.InsertAllInOrder | src/bencode/bencode_parser.cpp:195-198 | keys inserted in order leave the first entry of each run of equal keys in the map |
| Parser.BencodeParser.Decode | src/bencode/bencode_parser.cpp:35-49 | the parser object returns what the specification returns: value, error or exception |
| Parser.BencodeParser.DecodeValue | src/bencode/bencode_parser.cpp:52-66 | value, error and cursor agree with the specification at the old cursor |
| Parser.BencodeParser.DecodeInt | src/bencode/bencode_parser.cpp:68-98 | the same for integers, including the format, value and range failures |
| Parser.BencodeParser.DecodeString | src/bencode/bencode_parser.cpp:100-134 | the same for strings |
| Parser.BencodeParser.DecodeList | src/bencode/bencode_parser.cpp:136-165 | the same for lists |
| Parser.BencodeParser.DecodeItems | src/bencode/bencode_parser.cpp:145-153 | the item loop yields the values in order |
| Parser.BencodeParser.DecodeDict | src/bencode/bencode_parser.cpp:167-218 | the same for dictionaries |
| Parser.BencodeParser.DecodeFields | src/bencode/bencode_parser.cpp:175-198 | the item loop yields the filled map and the keys in the order they came |
| Parser.BencodeParser.DecodeField | src/bencode/bencode_parser.cpp:179-197 | one key, which must be a string, and its value |
| Parser.BencodeParser.ReadUntil | src/bencode/bencode_parser.cpp:76-81 | the digits loop stops at the first terminator or the end and returns what it passed |
| Parser.BencodeParser.ReadUpTo | src/bencode/bencode_parser.cpp:121-126 | the body loop returns the characters it passed and stops early only at the end |
| Parser.BencodeParser.InOrder | src/bencode/bencode_parser.cpp:207-214 | the key check succeeds exactly when no key is above its successor |
| BencodeTheorems.DecodeExact | src/bencode/bencode_parser.cpp:35-218 | decoding accepts exactly the well-formed spellings other than `0:` and returns their meaning |
| BencodeTheorems.RoundTrip | src/bencode/bencode_parser.cpp:31-49 | decoding an encoding gives the value back if and only if it is not the bare empty string and fits in `int64_t` bytes |
| BencodeTheorems.RoundTripInContext | src/bencode/bencode_parser.cpp:52-218 | an encoding is read back, and exactly consumed, between any prefix and suffix |
| BencodeTheorems.UniqueSpelling | src/bencode/bencode_parser.cpp:52-218 | the tree at the front of a text and the rest behind it are determined by the text |
| BencodeTheorems.UniqueReadability | src/bencode/bencode_value.cpp:14-78 | encodings are injective and prefix-free |
| BencodeTheorems.DecodeNormalises | src/bencode/bencode_parser.cpp:68-218 | re-encoding a decoded text never lengthens it, changes it exactly when it is not canonical, and decodes to the same value unless that is the bare empty string |
| BencodeTexts.DictOrderExact | src/bencode/bencode_parser.cpp:167-218 | a dictionary of well-formed entries decodes to its fields exactly if no key is above the one behind it, and is refused for its key order otherwise |
| BencodeTexts.TwoKeys | src/bencode/bencode_parser.cpp:207-214 | any two one-letter keys are accepted ascending and refused descending |
| BencodeTexts.AscendingKeys | src/bencode/bencode_parser.cpp:207-214 | a before b is accepted, b before a is refused for its key order |
| BencodeTexts.IntegerRange | src/bencode/bencode_parser.cpp:88-97 | a numeral decodes to its value exactly if that lies between -2^63 and 2^63 - 1, and throws otherwise |
| BencodeTexts.SizeRange | src/bencode/bencode_parser.cpp:112-119 | a string length above 2^63 - 1 throws, whatever follows |
| BencodeTexts.IntegerErrors | src/bencode/bencode_parser.cpp:68-98 | the texts that tell the errors of integers apart |
| BencodeTexts.StringErrors | src/bencode/bencode_parser.cpp:100-134 | the texts that tell the errors of strings apart |
| BencodeTexts.StructureErrors | src/bencode/bencode_parser.cpp:35-218 | unclosed containers, a key that is no string, something behind the value and no value at all, each with its error |
| BencodeTexts.PrintedTexts | src/bencode/bencode_value.cpp:14-31 | the texts of integers of both signs and of a string |
| BencodeTexts.PrintedLists | src/bencode/bencode_value.cpp:44-78 | the texts of a list and of the empty containers |
| BencodeTexts.ReadTexts | src/bencode/bencode_parser.cpp:35-165 | those texts decode to those values |
| Metainfo.Load | src/torrent.cpp:32-113 | the constructor completes exactly on the trees that describe a torrent and returns the torrent described |
| Metainfo.LoadInfo | src/torrent.cpp:50-112 | the same for the `info` dictionary: name, files, total length, 32-bit piece length, hashes and piece count |
| Metainfo.ReadNamed | src/torrent.cpp:52-85 | the name, the files and their total, or no torrent is described |
| Metainfo.ReadListing | src/torrent.cpp:54-85 | the files and their total, from the file list or the single length; fails only when no list of files fits |
| Metainfo.ReadFiles | src/torrent.cpp:58-75 | one file per node with the sum of their lengths, exactly when every node is a file |
| Metainfo.ReadFile | src/torrent.cpp:61-72 | the length and path of one node, exactly when it has both |
| Metainfo.ReadPath | src/torrent.cpp:67-72 | the path segments, exactly when all are strings |
| Metainfo.SplitHashes | src/hash.cpp:47-77 | the 20-byte slices in order, exactly when the length is a multiple of 20 |
| Metainfo.ReadPieceLength | src/torrent.cpp:87-88 | the low 32 bits of the piece length, exactly when it is an integer, or no torrent is described |
| Metainfo.ReadHashes | src/torrent.cpp:90-99 | the 20-byte hashes of the pieces, exactly when there is a string of a multiple of 20 bytes |
| Metainfo.ToInt32Exact | src/torrent.cpp:87-88 | the cast to `int` keeps every value that fits and keeps all values modulo 2^32 |
| Metainfo.PieceLengthKept | src/torrent.cpp:87-88 | the piece length of a loaded torrent is the number its tree gives if that fits in 32 bits, and congruent to it modulo 2^32 always |
| Metainfo.QuotientTruncates | src/torrent.cpp:106-108 | the division behind the piece count truncates toward zero: the remainder is below the divisor and has the sign of the dividend |
| Metainfo.SingleFile | src/torrent.cpp:77-85 | without a file list the torrent has one file, named as the torrent and as long as its length |
| Metainfo.DescribesOne | src/torrent.cpp:32-113 | a tree describes at most one torrent |
| Metainfo.PiecesCountIsCeiling | src/torrent.cpp:106-112 | the piece count is the ceiling of length over piece length |
| Metainfo.LoadedFits | src/torrent.cpp:54-112 | a loaded torrent with non-negative file lengths and positive piece length meets what the layout relies on |
| Metainfo.LookupLocates | src/bencode/bencode_parser.cpp:195-198 | looking a key up in the decoded map finds the value of its first entry in the text |
| Metainfo.InfoBytesExact | src/torrent.cpp:45-48 | the hashed bytes are the source substring consumed for the first `info` value exactly when that substring is canonical |
| Metainfo.InfoBytesOfCanonicalText | src/torrent.cpp:45-48 | in a canonical metainfo text the hashed bytes are the source bytes of `info` |
| Metainfo.InfoBytesIgnoreSpelling | src/torrent.cpp:45-48 | two metainfo trees hash the same bytes exactly when their `info` values are equal |
| MetainfoTexts.JoinedSplits | src/hash.cpp:47-77 | hashes of 20 bytes that are joined are split into the same hashes again |
| MetainfoTexts.TreeDescribes | src/torrent.cpp:32-113 | the tree that writes a torrent under the keys of the metainfo format describes that torrent exactly if its lengths, counts, hashes and hashed bytes agree |
| MetainfoTexts.MetainfoRoundTrip | src/furrent.cpp:311-328 | the metainfo text of a consistent torrent decodes to a tree that describes that torrent and no other, with its only file listed or given by its length |
| Layout.WantAt | src/torrent.cpp:192-197 | every piece has between one byte and the piece length, and the pieces before it end where it starts |
| Layout.FillPiece | src/torrent.cpp:203-229 | the inner loop terminates with the specified subpieces, and reads past the last file if and only if it takes all that is left and that file is not empty |
| Layout.CarvePiece | src/torrent.cpp:199-237 | one piece and the cursor behind it, in either branch, and whether a missing file was read |
| Layout.GeneratePieces | src/torrent.cpp:178-243 | the nested loops return the specified pieces and report a read of a missing file exactly when the descriptor causes one |
| Layout.FillTakes | src/torrent.cpp:203-228 | the inner loop assigns exactly the next bytes of the stream |
| Layout.CarveExact | src/torrent.cpp:199-237 | a piece covers exactly its slice of the stream and leaves the cursor where the next one starts |
| Layout.PiecesExact | src/torrent.cpp:189-240 | piece k is the k-th slice of the stream of all files, with every subpiece inside its file |
| Layout.PieceAtCursor | src/torrent.cpp:189-240 | piece k is what is carved at the cursor the pieces before it leave |
| Layout.Partition | src/torrent.cpp:178-243 | the subpieces of all pieces, in order, are all bytes of all files, in file order |
| Layout.EveryByteOnce | src/torrent.cpp:178-243 | each byte of each file is at exactly one place of exactly one piece |
| Layout.LeavesFilesExact | src/torrent.cpp:185-216 | carving asks for a file that does not exist if and only if there is none, or the last piece does not fit the file it starts in and the last file is not empty |
| Layout.ReadsPastByLengths | src/torrent.cpp:200-216 | when the last file is not empty, a last piece that starts before it causes the read of a missing file, and one that starts strictly inside it does not |
| Layout.TwoFullFiles | src/torrent.cpp:215 | two files of one piece each: the last piece reads the length of a third |
| Layout.EmptySubpieceExact | src/torrent.cpp:200-216 | a piece gets an empty subpiece if and only if an empty or exhausted file comes before its bytes are found |
| Save.Disk.WriteBytes | src/platform/io.cpp:51-75 | the bytes land at the offset, a gap before them fills with zeros, every other byte and file stays, and the file grows just as far as needed |
| Save.WriteAtExact | src/platform/io.cpp:63-67 | the same of the specified write, for any offset |
| Save.Disk.Save | src/furrent.cpp:57-78 | one write of the whole content per subpiece, in order, up to the first write that fails |
| Save.OneFilePieces | src/torrent.cpp:230-237 | when all bytes lie in the first file, piece k is the one subpiece at k piece lengths |
| Save.SomeOverrun | src/torrent.cpp:199-212 | otherwise some piece does not fit the file its first subpiece is in |
| Save.SaveOne | src/furrent.cpp:58-78 | saving a piece of a one-file torrent makes it right and keeps every other right piece right |
| Save.OverrunStays | src/furrent.cpp:62-66 | a file that a saved piece overran is too long ever after |
| Save.SaveAllExact | src/furrent.cpp:58-78 | after saving every piece at least once, in any order and with repeats, the files are right if and only if all bytes lie in the first file |
| Save.OneFileMeansOne | src/platform/io.cpp:23-25 | with no empty files, which the client refuses, that means exactly one file |
| Save.TwoFilesSpoiled | src/furrent.cpp:62-66 | two one-byte files in one piece: the first file comes out two bytes long |
| Bitfields.WithBitExact | src/download/bitfield.cpp:35-42 | or-ing in or masking out one bit of a byte changes that bit and no other |
| Bitfields.SetBitExact | src/download/bitfield.cpp:32-43 | a write to the packed bytes is a write to the sequence of booleans |
| Bitfields.RunRefines | src/download/bitfield.cpp:32-50 | any run of writes on the packed bytes is the same run on the booleans |
| Bitfields.SpareBitsKept | src/download/bitfield.cpp:32-43 | writes within the length leave the spare trailing bits alone |
| Bitfields.ByteBits | src/download/bitfield.cpp:8-9 | bit i of a byte from the wire is bit i of its value, the high one first |
| Bitfields.WireBits | src/download/message.cpp:168-171 | the bits of a bitfield message in piece order |
| Bitfields.FlagsAreDigits | src/download/bitfield.cpp:5-9 | the flags of a byte are its binary digits, the highest first: the byte is the sum of their weights |
| Bitfields.FirstPieceFirst | src/download/bitfield.cpp:22-50 | a message that begins with 0x80 offers piece 0 and none of the seven after it |
| Bitfields.Bitfield.Create | src/download/bitfield.cpp:25-30 | refuses a negative length; otherwise ceil(len/8) bytes of cleared bits |
| Bitfields.Bitfield.Zeroed | src/download/bitfield.cpp:25-30 | the storage is all zero and has as many bytes as the bits need, no more |
| Bitfields.Bitfield.FromBytes | src/download/bitfield.hpp:32-33 | the storage is the given bytes |
| Bitfields.Bitfield.FromMessage | src/download/message.cpp:168-171 | the storage has the bits of the message, in piece order |
| Bitfields.Bitfield.Set | src/download/bitfield.cpp:32-43 | refuses an index out of bounds, falls outside a storage that is too short, and otherwise sets that bit alone |
| Bitfields.Bitfield.SetInBounds | src/download/bitfield.cpp:35-42 | the byte update in place |
| Bitfields.Bitfield.Get | src/download/bitfield.cpp:45-50 | the boolean at the index, a refusal out of bounds, or an access outside the storage |
| Wire.EncodeInteger | src/download/util.cpp:6-20 | four big-endian bytes whose value is the integer, and a refusal exactly outside the unsigned 32-bit range |
| Wire.DecodeInteger | src/download/util.cpp:22-29 | the value of four big-endian bytes |
| Wire.NumberOfBytes | src/download/util.cpp:6-29 | decoding inverts encoding |
| Wire.BytesOfNumber | src/download/util.cpp:6-29 | encoding inverts decoding |
| Wire.BytesInPlace | src/download/util.cpp:6-29 | which byte counts what, in both directions |
| Wire.SimpleBytes | src/download/message.cpp:25-45 | the bytes of the keep-alive and of the messages without a payload |
| Wire.HaveBytes | src/download/message.cpp:157-166 | the bytes of a Have: length 5, kind 4, then the index |
| Wire.BitfieldBytes | src/download/message.cpp:173-175 | the bytes of a Bitfield: its length, kind 5, then the packed bits |
| Wire.RequestParts | src/download/message.cpp:195-209 | the bytes of a Request: length 13, kind 6, then index, begin and length |
| Wire.RequestBytes | src/download/message.cpp:195-209 | a Request byte by byte |
| Wire.PieceParts | src/download/message.cpp:232-245 | the bytes of a Piece: its length, kind 7, then index, begin and the block |
| Wire.RefusedExact | src/download/message.cpp:47-225 | exactly which frames are refused and with which error |
| Wire.MessageRoundTrip | src/download/message.cpp:25-141 | decoding an encoded message gives it back if and only if a bitfield has the torrent's piece count |
| Wire.PayloadInverse | src/download/message.cpp:143-245 | every accepted payload is the encoding of the message it decodes to, except that ids below 4 drop theirs |
| Wire.RecvOne | src/download/downloader.cpp:322-367 | the frame of a message is read back whole, whatever follows |
| Wire.StreamRoundTrip | src/download/downloader.cpp:322-367 | the concatenated encodings of any messages read back as those messages, then whatever the tail reads as |
| Wire.RecvInverse | src/download/message.cpp:72-98 | a received frame is the encoding of its message exactly when it is not a simple message with a payload |
| Wire.ChokeWithPayload | src/download/message.cpp:72-98 | a Choke with a byte of payload is received as a plain Choke |
| Wire.Connection.Read | src/download/downloader.cpp:343-348 | reads exactly that many bytes or fails and consumes nothing |
| Wire.Connection.RecvMessage | src/download/downloader.cpp:322-367 | the socket reads one frame as specified and is closed on every failure |
| Download.BlocksTile | src/download/downloader.cpp:217-244 | blocks follow one another without gap or overlap from 0 to the piece length |
| Download.RunInv | src/download/downloader.cpp:233-298 | what every point of every run keeps: counters, log, choke flag, buffer |
| Download.RunSafe | src/download/downloader.cpp:233-308 | for every peer behaviour: requests are blocks 0, 1, 2, ... once each, disciplined; a result has the piece's length and passes the check |
| Download.DisciplinedPrefix | src/download/downloader.cpp:235-257 | at every moment at most five requests are in flight and none is sent while choked |
| Download.SilentWhileChoked | src/download/downloader.cpp:264-276 | nothing is requested between a Choke and the next Unchoke |
| Download.RequestsTile | src/download/downloader.cpp:233-257 | on every run the requests sent carry the index of the piece, begin at 0, follow each other without a gap in blocks of 16384 bytes, never pass the end of the piece, and end there once all are sent |
| Download.RequestInPiece | src/download/downloader.cpp:233-257 | each request of a run lies within the piece |
| Download.OffersExact | src/download/downloader.cpp:277-284 | after every run the peer offers exactly what it offered before and what it announced since |
| Download.HonestPeer | src/download/downloader.cpp:285-308 | true answers to distinct blocks, in any order among any messages, leave the true piece and return it |
| Download.RepeatsExact | src/download/downloader.cpp:285-308 | when true blocks may repeat, a loop that runs to its end has the true piece in its buffer if and only if every block that never came is all zeros |
| Deliveries.Delivery | src/download/downloader.cpp:233-298 | with enough blocks on the way and a working socket the loop ends and loses no block |
| Deliveries.HonestStream | src/download/downloader.cpp:179-367 | when the bytes of a peer are the encodings of messages that announce only pieces of the torrent and answer every request once with the true bytes, in any order, the download returns the true piece |
| Deliveries.RepeatsDelivered | src/download/downloader.cpp:233-308 | the same from the messages of the peer: only the first blocks count, as many as the piece has |
| Deliveries.RepeatedBlock | src/download/downloader.cpp:285-308 | a truthful peer that sends the first of two blocks twice: the piece is taken for corrupt |
| Deliveries.OverrunExact | src/download/downloader.cpp:233-298 | how every run ends, on any socket: it leaves its memory, or throws, if and only if a message or a request that does so comes up before the last block and before anything else that ends the loop; if nothing ends it, it gets to the check |
| Deliveries.OversizedBlock | src/download/downloader.cpp:288-289 | a block one byte longer than the piece leaves the buffer |
| Deliveries.PipelineFull | src/download/downloader.cpp:234-257 | topping up leaves exactly five requests in flight unless all blocks are requested |
| Deliveries.UnknownAnnounced | src/download/downloader.cpp:277-284 | the announcement of a piece the torrent does not have ends the run with an exception |
| Downloaders.DownloadedExact | src/download/downloader.cpp:195-215 | a downloaded piece was offered, has the layout's length and passes the check |
| Downloaders.AttemptRefused | src/download/downloader.cpp:179-197 | which calls end before any request: an index outside the torrent throws, a bit outside the storage is an overrun, a piece not offered is missing |
| Downloaders.AttemptRequests | src/download/downloader.cpp:179-257 | every request of a call asks for the piece it was called for, within the length of that piece |
| Downloaders.CopyBlock | src/download/downloader.cpp:288-289 | the block is copied into the buffer at its offset and nothing else changes |
| Downloaders.Downloader.SendMessage | src/download/downloader.cpp:311-320 | a message is sent, refused by the encoder, or lost with the socket destroyed |
| Downloaders.Downloader.RecvMessage | src/download/downloader.cpp:322-367 | the next message or failure; every failure destroys the socket |
| Downloaders.Downloader.AwaitUnchoke | src/download/downloader.cpp:86-101 | ends unchoked exactly when an Unchoke arrives before a failure, having consumed up to the first Unchoke; otherwise everything up to the failure is consumed |
| Downloaders.Downloader.SendBlock | src/download/downloader.cpp:237-253 | one request of the inner loop |
| Downloaders.Downloader.SendPipeline | src/download/downloader.cpp:235-257 | the inner loop does what the specification's does |
| Downloaders.Downloader.HandleMessage | src/download/downloader.cpp:264-297 | the switch does what the specification's does, in place |
| Downloaders.Downloader.TakeTurn | src/download/downloader.cpp:234-298 | one turn of the outer loop |
| Downloaders.Downloader.DownloadPiece | src/download/downloader.cpp:202-308 | the outer loop over a fresh buffer and the check behind it |
| Downloaders.Downloader.TryDownload | src/download/downloader.cpp:179-309 | the whole call: exceptions, a missing piece, or the specified run; the socket survives every other outcome than a failure of its own |
| WorkQueue.Queue.Insert | src/policy/queue.inl:7-24 | pushes at the back unless the size counter is exhausted |
| WorkQueue.Queue.Extract | src/policy/queue.inl:31-42 | removes the item the policy points at and keeps the order of the others |
| WorkQueue.ExtractConserves | src/policy/queue.inl:31-42 | extraction neither loses nor duplicates an item and fails only on an empty list or at the policy's fault |
| WorkQueue.LIFOTakesOldest | src/policy/policy.inl:5-8 | the policy called LIFO takes the oldest item |
| WorkQueue.FIFOTakesNewest | src/policy/policy.inl:10-13 | the policy called FIFO takes the newest item |
| WorkQueue.Queue.Mutate | src/policy/queue.inl:44-54 | one pass in place keeps the items not removed, as mutated, in order |
| WorkQueue.SweepConserves | src/policy/queue.inl:44-54 | for any mutation, spared and removed items together are the items, none lost or duplicated |
| WorkQueue.KeptIsMutated | src/policy/queue.inl:44-54 | what stays queued is, in order, what the mutation made of each spared item |
| WakeUp.WaitExact | src/mt/sharing_queue.inl:47-63 | a thread that waits or wakes to check goes on exactly if there is what it waits for or waiting is skipped, and sleeps otherwise |
| WakeUp.RunningMayBegin | src/mt/sharing_queue.inl:8-81 | a running thread may begin any operation, bounded by what is queued |
| WakeUp.SpuriousChecksAgain | src/mt/sharing_queue.inl:52-62 | a thread that wakes for no reason checks, and sleeps on if nothing it waits for holds |
| WakeUp.NotifyExact | src/mt/sharing_queue.inl:18-45 | a notification wakes everybody who sleeps for it and nobody else |
| WakeUp.DutyExact | src/mt/sharing_queue.inl:8-81 | who has to notify whom after its mutex section |
| WakeUp.WorkExact | src/mt/sharing_queue.inl:8-81 | in every run the queue holds what was inserted less what was extracted or removed, and waiting is skipped exactly once that was begun |
| WakeUp.SleepsForWork | src/mt/sharing_queue.inl:47-54 | a run in which a thread falls asleep for work |
| WakeUp.WokenByInsert | src/mt/sharing_queue.inl:23-54 | a run in which an insertion wakes it and it goes on |
| WakeUp.StepKeepsWork | src/mt/sharing_queue.inl:24-54 | each step keeps: a sleeper with work available has a notification coming |
| WakeUp.NoLostWakeUp | src/mt/sharing_queue.inl:24-54 | no lost wake-up in `wait_work`, in every run of any number of threads |
| WakeUp.NobodySleepsAgain | src/mt/sharing_queue.inl:74-81 | once skipping has begun and its notification was sent, skipping stays on and nobody sleeps for work again |
| WakeUp.StepExactEmpty | src/mt/sharing_queue.inl:56-81 | a step loses the wake-up of a `wait_empty` sleeper exactly when it empties the queue silently and no notification is coming |
| WakeUp.StrandedWaiter | src/mt/sharing_queue.inl:56-72 | a run that leaves such a sleeper stranded |
| SchedulerInvariant.StepInv | src/furrent.cpp:156-379 | every step of every worker and client keeps the books of every torrent and the lock discipline, unless it adds a torrent again |
| SchedulerInvariant.ReachableInv | src/furrent.cpp:156-379 | so the invariant holds in every state that runs of any number of workers and clients reach without adding a torrent again |
| SchedulerDraws.DrawsExact | src/furrent.cpp:308-309 | in every run the drawn identifiers differ if and only if no client reads the counter while another stands between its read and its store |
| SchedulerDraws.SeparateRuns | src/furrent.cpp:308-341 | a run without such overlaps adds no torrent again, in whatever order clients lock after drawing |
| SchedulerDraws.DrawsCount | src/furrent.cpp:308-309 | in a run whose draws do not overlap the identifiers are 0, 1, 2 and so on |
| SchedulerTheorems.SweepIsMutate | src/furrent.cpp:368-369 | the sweep step is the queue's own mutation |
| SchedulerTheorems.TakeIsExtract | src/furrent.cpp:166-171 | taking a task is the queue's own extraction with the policy called LIFO |
| SchedulerTheorems.EmplaceIsInsert | src/policy/queue.inl:7-24 | a task that is added or put back goes to the back of the queue |
| SchedulerTheorems.FirstComeFirstServed | src/policy/queue.inl:7-42 | in every run without a removal tasks leave the queue in the order in which they entered it |
| SchedulerTheorems.PausedIsRequeued | src/furrent.cpp:180-186 | a worker puts its task back exactly if it sees the torrent paused |
| SchedulerTheorems.PauseTakesEffect | src/furrent.cpp:180-186 | a worker that looks after a pause puts its task back, one that looks after a resumption processes it |
| SchedulerTheorems.AddedExact | src/furrent.cpp:338-357 | what a torrent is when it is added: a score of one for each peer, an error without peers |
| SchedulerTheorems.PublishedExact | src/furrent.cpp:360 | the added torrent is set downloading |
| SchedulerTheorems.GivenUp | src/furrent.cpp:311-334 | a client whose torrent cannot be loaded can draw again and has changed nothing else |
| SchedulerTheorems.Conservation | src/furrent.cpp:166-223 | in every interleaving each piece of a fully enqueued torrent is in exactly one of queued, held, processed and swept, and these add up to the piece count |
| SchedulerTheorems.WorkersFindTheirTorrent | src/furrent.cpp:174-204 | a worker's lookups never insert and there is always a peer to draw |
| SchedulerTheorems.ScoresAddUp | src/furrent.cpp:206-210 | peer scores add up to peers, processed pieces and workers in between |
| SchedulerTheorems.ScoreExact | src/torrent.cpp:155-159 | a reward raises the score of the peer that was used by one and leaves every other score alone |
| SchedulerTheorems.ServingPeerRewarded | src/furrent.cpp:195-207 | the peer that is rewarded is the one that served the piece |
| SchedulerTheorems.ScoreCounts | src/torrent.cpp:150-159 | in every run from the start the score of a peer is one more than the number of its rewards |
| SchedulerTheorems.CompletedOnce | src/furrent.cpp:208-221 | a worker writes Completed at most once, after Downloading, with all pieces processed and none queued or held |
| SchedulerTheorems.CompletedMeansDone | src/furrent.cpp:216-221 | no torrent is completed twice, and a completed one has all its pieces |
| SchedulerTheorems.RemovedNeverCompletes | src/furrent.cpp:366-379 | once a removal has swept a queued task, no later interleaving completes the torrent |
| SchedulerTheorems.CompletedLost | src/furrent.cpp:371-378 | Completed is overwritten exactly by a removal that saw an unfinished state, or by pausing and resuming |
| SchedulerTheorems.AddExact | src/furrent.cpp:338-357 | once an adding client has enqueued its first task, that piece is in two places if the torrent was there with peers and pieces, and in one place otherwise |
| SchedulerTheorems.OnlyTheseOverwrite | src/furrent.cpp:360-378 | in any state at all, the Completed of a torrent with peers is overwritten exactly by a removal that saw an unfinished state, by pausing or resuming, or by a second publication |
| SchedulerTheorems.StoppedExact | src/furrent.cpp:375-378 | a removal writes Stopped exactly if the state it saw was neither Completed nor an error |
| SchedulerTheorems.UnknownRemoved | src/furrent.cpp:371-373 | removing a torrent that does not exist creates an empty one marked as an error |
| SchedulerProgress.WorkerBlockedExact | src/furrent.cpp:166-205 | in every reachable state a worker is blocked exactly if it finds the queue empty or wants the lock while a client adds a torrent |
| SchedulerProgress.ClientBlockedExact | src/furrent.cpp:305-379 | a client is blocked exactly if it removes and wants the lock while another adds a torrent; one that adds gets the lock exactly if nobody holds it |
| SchedulerProgress.AtAnyTime | src/furrent.cpp:305-373 | any torrent may be removed, known or not, and any known one paused, in every state |
| SchedulerProgress.AddingEnds | src/furrent.cpp:338-364 | a client that adds a torrent leaves the exclusive lock after one step per piece left and one more |
| SchedulerProgress.LockComesFree | src/furrent.cpp:174-379 | from every reachable state there is a run in which only holders of the lock move and all of them leave it: no deadlock |
| SchedulerProgress.WaitersGetTheLock | src/furrent.cpp:174-379 | some run leads to a state in which each thread that waits for the lock can have it |
| SchedulerSaves.CompletedIsSaved | src/furrent.cpp:24-28 | every piece of a completed torrent has been saved, and nothing but its pieces |
| SchedulerScenes.StoppedAfterCompleted | src/furrent.cpp:371-378 | a run in which a removal overwrites Completed |
| SchedulerScenes.SharedIdentifier | src/furrent.cpp:308-341 | a run in which two clients draw one identifier and the only piece of a torrent is queued twice |
| EndToEnd.DownloadedIsSaved | src/furrent.cpp:24-78 | whatever the peer does, a downloaded piece is the true one if the digest identifies it; saved to a one-file torrent it is in its place and keeps right pieces right, and saved where it does not fit it leaves its first file too long |
| EndToEnd.ServedIsSaved | src/furrent.cpp:24-78 | the bytes of a peer that answers truly, in any order, put its piece into the file of a one-file torrent |
| EndToEnd.CompletedFiles | src/furrent.cpp:156-223 | in every reachable state, the files of a completed torrent are right if and only if all its bytes lie in the first file, whatever order and repeats its pieces were saved with |

## Left out

- Sockets, timeouts and the handshake (src/download/socket.cpp, src/download/downloader.cpp:119-177): the peer is an arbitrary sequence of messages or bytes with a failure possible at any read and after any write.
- The file system (src/platform/io.cpp, `prepare_torrent_files`): a file is a byte sequence; a write that fails writes nothing, and the save of one piece is one step of the scheduler.
- SHA1 (src/hash.cpp): the check of a piece is an arbitrary predicate, and the descriptor keeps the bytes hashed for `info` instead of their digest. The refusal of inputs too long to hash is modelled for `info` in `Load`, not for pieces.
- The tracker (src/peer.cpp), the user interface, logging and the result and singleton wrappers: plumbing around the modelled parts.
- What happens after an access outside a buffer, a storage or the list of files: a run of the downloader ends there, and the generator of pieces goes on with length zero and reports it.
- Weights of the random peer choice: the index is any peer of the torrent.
- Data races on the counter of identifiers beyond the order of its accesses: each read and each write is one step.
- Liveness of a download: a worker may retry forever, and requests dropped after a Choke are not sent again. That the lock comes free is stated as the existence of a run, without fairness of the threads.
- Names of files: a subpiece names its file by position; joining path segments is not modelled.
- Metainfo.Load: does not say which exception ends a refused construction, because the program handles them alike.
- Metainfo.LoadInfo: does not say which exception ends a refused construction, and sums lengths without the overflow of `int64_t`, which the program does not check either.
- Save.Disk.WriteBytes: models a write that succeeds; that an open or a write can fail is modelled in `Save`, whose loop stops there.
- Downloaders.Downloader.TryDownload: starts on an established connection; of `ensure_connected` only the wait for an Unchoke is modelled, in `AwaitUnchoke`.
