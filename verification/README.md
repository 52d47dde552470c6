# qtng: verified models of the protocol cores

qtng is a coroutine network library. This project models the parts of it in which most of the
protocol logic sits, and proves what those parts promise: for every input, for every order of
events, and for every state they can reach.

* **HTTP/2 client session** (`Http2Frames`, `Http2Session`, `Http2Runs`, `Http2Flow`, `Http2Send`,
  `Http2Upload`, `Http2Tables`, `Http2Effects`, `Http2Client`). `Http2Session` gives the session's steps as functions, `Http2Client` is the object
  whose handlers carry them out, `Http2Runs` lets frames, stream creation, releases and sends
  interleave in any order, `Http2Flow` states the flow-control laws over whole runs, `Http2Upload`
  places the frames of an uploaded body in such a run, `Http2Tables` follows the header table, and
  `Http2Effects` says which streams each kind of frame ends and what is stored and answered. A DATA send
  is two steps, as in the source: the window check lets the frame go, and only after the write has
  returned are the windows debited.
* **HPACK** (`HpackInteger`, `HpackHuffman`, `HpackHuffmanTable`, `HpackTrie`, `HpackTable`, `Hpack`,
  `HpackStatic`, `HpackForms`, `HpackCodec`). RFC 7541 integers, the Huffman code with the real 257-entry table, the dynamic
  table as a window on its history, the encoder/decoder pair, and the decoder on blocks in any form, whoever
  encoded them.
* **DataChannel multiplexer** (`ChannelFlow`, `ChannelRelay`, `ChannelPaths`, `ChannelSender`, `ChannelGraph`,
  `ChannelSpread`, `ChannelRuns`, `ChannelNumbers`, `ChannelEffects`, `ChannelLoss`, `ChannelAbort`). Slow-down/go-through
  flow control along a line of endpoints over FIFO links, with exchanges that join channels; addresses of nested virtual channels and the
  purge of a closed channel's packets; the sender with its completion events; abort on an arbitrary
  graph of channels, as a function on graphs that the objects' methods compute; and runs in which
  channels are made, offered by the peer, claimed, joined, destroyed and aborted in any order.
* **Kademlia** (`KademliaId`, `KademliaTable`, `KademliaLookup`). The XOR metric, the k-bucket table,
  and the iterative lookup against a network that answers whatever it likes.
* **Bencode and the torrent scanner** (`Bencode`, `BencodeRoundTrip`, `BencodeNormal`,
  `BencodeForms`, `BencodeCanonical`, `BencodeExcerpt`, `BencodeReader`, `BencodeSkip`, `BencodeScan`, `BencodeWalk`,
  `TorrentInfo`, `BtMetadata`). Decoder and encoder with the allocation limit, the stream reader with its one-byte
  look-ahead, the torrent code's own scanner with its 32-bit lengths, the info dictionary it cuts
  out, and the BEP-9 metadata exchange with peers that send what they like.
* **PieceStorage** (`PieceStorage`). Many files addressed as one flat array of hashed pieces.
* **Software digests** (`DigestTransforms`, `Digest`, `DigestConstants`, `DigestVectors`). MD5, SHA-1, SHA-224
  and SHA-256, tied to the standards by where their constants come from and by the standards' own examples, absorbed in
  pieces of any size.

`Bytes` holds byte strings, powers of two and the few facts about them that all components share.

Integers are unbounded in Dafny. These widths of the source are written out: the HPACK integer and
table counters, the HTTP/2 windows, the channel threshold, `strtoll`, the scanner's text lengths and
offsets, the metadata message's numbers, the end of a block request, the digest words and the message
length. Where a width is not, "Left out" says so.

A scan that need not end takes `fuel`, a number of steps; `BencodeScan.MoreFuel` says that fuel
decides only whether the end is seen, never what it is.

## Where the code differs from what it follows

The model always does what the code does. For each of the following points, on which that falls short of
a standard or of the code's own comments, a lemma gives inputs on which it fails and another says exactly
when it holds.

* Huffman decoding accepts a string exactly when its code lengths add up to whole bytes
  (`HpackHuffman.RoundTripExactly`); the padding that section 5.2 of RFC 7541 asks for is refused, for
  instance behind the one letter "a" (`HpackHuffmanTable.PaddingIsRefused`). An end-of-string code,
  which that section wants refused, is accepted with anything behind it (`HpackHuffman.BehindTheEnd`;
  exactly what is accepted: `HpackHuffman.DecodesExactly`).
* An HPACK integer of 2^32 or more, which section 5.1 of RFC 7541 wants refused, wraps
  (`HpackInteger.IntegerWraps`; exactly when: `HpackInteger.IntegerExactly`).
* Static table search compares C strings, so a header name or value with a NUL byte may come back
  shortened (`Hpack.NulInNameIsLost`; exactly when: `Hpack.EndToEnd`).
* The dynamic table's 32-bit size counter is right for every insertion exactly when the limit is
  below 2^31 (`HpackTable.SizeIsRightExactlyBelow2To31`).
* A DATA send is checked before the write and debited after it. A SETTINGS frame that lowers the
  initial window during the write can overdraw the stream (`Http2Flow.ShrinkDuringWriteOverdraws`;
  exactly when: `Http2Flow.StreamCreditExactly`), and interleaved sends overdraw the connection
  (`Http2Flow.InterleavedSendsOverdraw`; exactly when: `Http2Flow.OverdraftExactly`).
* Section 6.9.2 of RFC 7540 lets a SETTINGS frame make a stream's window negative; the code ends the
  session instead (`Http2Flow.ShrinkAfterWriteFails`; exactly when: `Http2Flow.WindowSettingExactly`).
* A header block on a stream that is unknown or has ended is dropped undecoded, against section 4.3 of RFC
  7540, and a later block that refers to what it stored ends the session (`Http2Tables.DroppedBlockEndsSession`).
  The peer's HEADER_TABLE_SIZE, meant for the client's encoder, also resizes the decoder
  (`Http2Tables.DecoderResized`). The decoder's table is always the one the peer counts on exactly if no dropped
  block would have changed it and no size setting did (`Http2Tables.ConformsExactly`, `Http2Tables.ResizesExactly`).
* Arriving frames are bounded by the frame size the peer announced for itself, not by the client's own
  (`Http2Tables.LargeFrameTaken`; exactly when the two are the same: `Http2Tables.FrameBoundExactly`).
* The slow-down threshold multiplies the capacity by three in 32 bits (`ChannelRelay.PausedBelowHalf`;
  exactly when: `ChannelRelay.AboveHalfExactly`).
* A receiver that has read everything should not leave its sender waiting. `exchange` empties the queues of the
  channels it joins without lifting a pause, so a sender can stay shut out with nothing queued, held or under way
  anywhere (`ChannelRelay.ExchangeLeavesGateShut`, and for good: `ChannelRelay.AbandonedForever`). A pause always
  has its reason exactly if every exchange finds no pause on at either end, or a packet waiting to be stored there
  (`ChannelRelay.FoundedExactly`), and then a drained line means an open gate (`ChannelRelay.DrainedMeansOpen`).
* The comment in `exchange` says that the queues of joined channels are always empty. A packet that waits to be
  stored at that moment is queued afterwards (`ChannelRelay.HeldIsLeftBehind`; exactly when the comment is right:
  `ChannelRelay.BareExactly`).
* A channel number chosen by the peer may be one of the two reserved ones; then closing it also takes
  its own DESTROY request out of the queue (exactly when: `ChannelPaths.DestroyKeptExactly`), or
  packets of a channel above it (`ChannelPaths.ReservedNumberTakesParentData`,
  `ChannelPaths.ReservedNumberMisleads`; exactly when: `ChannelPaths.PicksOwnedExactly`).
* Aborting a channel should reach every channel below it. A parent registers a channel it makes under its
  next number without looking, so a number the peer chose first hides one of the two, and a plug can then
  have the wrong one struck off (`ChannelLoss.SharedNumberSurvives`). A DESTROY request goes to an unclaimed
  channel with the number even if that one is closed already, and the registered one is forgotten
  (`ChannelLoss.StaleDestroySurvives`). Every working channel always stands under its number exactly if
  neither happens (`ChannelRuns.RegistrationExactly`), and then an abort reaches all
  (`ChannelNumbers.CarefulAbortReachesBelow`).
* The bencode reader takes `i-0e` for 0 (`BencodeCanonical.MinusZero`), stops at the ends of the 64-bit
  range instead of failing (`BencodeCanonical.BeyondRange`), and takes unsorted or repeated dictionary
  keys (`BencodeCanonical.TwoEntries`, `BencodeCanonical.KeysOutOfOrder`), which BEP-3 rules out. An
  accepted input is what its value is written as exactly if none of these occurs in it
  (`BencodeCanonical.CanonicalExactly`).
* The torrent code's scanner reads a text length into 32 bits, so a length of 2^31 or more can take it
  backwards, and on some inputs it never ends (`BencodeScan.EndlessScan`). A step equals the
  reference's exactly if the length needs no wrapping (`BencodeScan.TextStepExactly`), a whole scan ends
  exactly if it does within three steps a byte (`BencodeScan.ScanEndsExactly`), and gives the reference's
  answer exactly if no wrapped step derails it, or the path it then takes strands at a byte that cannot
  stand there (`BencodeWalk.ScanAnswersExactly`).
* With a repeated "info" key the bytes of the first value are cut out, and hashed, while the decoder
  keeps the last (`TorrentInfo.RepeatedInfo`; exactly when they agree: `TorrentInfo.InfoExactly`).
* The end of a requested block is computed in 32 bits, so a request can be accepted that lies outside
  its piece (`PieceStorage.WrappedEndIsAccepted`). It cannot exactly if the torrent is below 2 GiB
  (`PieceStorage.StaysInPieceExactly`).

Three smaller ones stand in a contract: `bucketIndex` is documented as 0..159 or -1, and is 159 for an
invalid identifier (`KademliaId.BucketFor`); a request body announced as non-empty that reads as empty
sends no frame at all, hence no END_STREAM, and every other body that is sent ends once
(`Http2Send.SendBody`); and the decoder takes any table size update, while section 6.3 of RFC 7541 bounds
it by a setting (`Hpack.SizeUpdateTaken`).

## Model

| member | source | states |
|---|---|---|
| HpackInteger.RoundTrip | src/hpack.cpp:344-388 | Every 32-bit value encoded with any prefix width and pattern byte, anywhere in a buffer, is decoded to itself and the position moves just past it |
| HpackInteger.EncodeInteger | src/hpack.cpp:344-358 | The encoding loop appends exactly the encoding the round trip is about |
| HpackInteger.DecodeInteger | src/hpack.cpp:360-388 | The decoding loop, with its 32-bit addition and shift bound, accepts and yields exactly what the specification reads; truncated or overlong input fails |
| HpackInteger.IntegerExactly | src/hpack.cpp:360-388 | Every accepted integer is the number spelled modulo 2^32, hence right if and only if that is below 2^32 |
| HpackInteger.IntegerWraps | src/hpack.cpp:360-388 | Five full continuation bytes spelling 2^35 + 30 are read as 30 |
| HpackHuffman.RoundTripExactly | src/hpack.cpp:390-475 | For every prefix-free table whose end-of-string code is all ones, decoding an encoded and padded string gives the string back if the code lengths sum to a multiple of eight and fails otherwise |
| HpackHuffman.DecodesExactly | src/hpack.cpp:451-475 | For every bit string: it decodes to a given string if and only if it is the codes of that string, alone or followed by an end-of-string code and anything |
| HpackHuffman.BehindTheEnd | src/hpack.cpp:461-466 | Whatever follows an end-of-string code is dropped unread |
| HpackHuffman.ReadAll | src/hpack.cpp:451-475 | Decoding the code words of any string emits exactly its symbols before going on with what follows |
| HpackHuffman.Encode | src/hpack.cpp:390-409 | The bytes packed through the 64-bit buffer are the concatenated code words, filled with ones to a whole byte |
| HpackHuffman.FlushBytes | src/hpack.cpp:399-402 | Emitting whole bytes moves bits from the buffer to the output without losing or changing any |
| HpackHuffman.PadLast | src/hpack.cpp:404-407 | The last byte is completed with ones and nothing else |
| HpackHuffmanTable.TableIsGood | src/hpack.cpp:83-341 | The 257 codes of the source are pairwise prefix-free, fit their lengths, and the end-of-string code is thirty ones |
| HpackHuffmanTable.CanonicalCode | src/hpack.cpp:83-341 | The code is the canonical one for its lengths: codes of one length increase with their symbols, longer ones lie beyond all extensions of shorter ones |
| HpackHuffmanTable.PaddingIsRefused | src/hpack.cpp:451-475 | With the real table, the letter "a" padded with ones to a whole byte is refused |
| HpackTrie.BuildTree | src/hpack.cpp:417-443 | Building from any prefix-free table gives a trie in which exactly the prefixes of codes have nodes and exactly the full codes carry their symbol, so each code leads from the root to its own symbol past unlabelled nodes only |
| HpackTrie.Insert | src/hpack.cpp:423-440 | Adding one code keeps every earlier code's path and label and adds the new ones |
| HpackTrie.EachCodeReachesItsLeaf | src/hpack.cpp:417-443 | From the root each code leads to its own leaf, and no node before it on the way is labelled |
| HpackTrie.Decode | src/hpack.cpp:451-475 | The bit loop over the trie agrees with decoding by code words, including the end-of-string and unfinished-code cases |
| HpackTable.TableIsPrefixOfHistory | src/hpack.cpp:547-572 | After any inserts and resizes with limits below 2^31 the size counter is the sum of the entry sizes, within the limit, and the table is a prefix of the newest-first history |
| HpackTable.TableIsLongestFit | src/hpack.cpp:553-572 | Under a fixed limit the table is the longest prefix of its history that fits |
| HpackTable.InsertFirstIsEvictFirst | src/hpack.cpp:561-572 | Inserting and then evicting gives the table that section 4.4 of RFC 7541 gets by evicting first |
| HpackTable.EvictKeepsLongestFit | src/hpack.cpp:553-559 | Eviction keeps exactly the longest fitting prefix and leaves a right counter |
| HpackTable.LongestFitOfLongestFit | src/hpack.cpp:561-572 | What an earlier eviction dropped would not have fitted behind a newer entry either |
| HpackTable.SizeIsRightExactlyBelow2To31 | src/hpack.cpp:512-572 | Every insertion keeps the 32-bit counter equal to the sum of the sizes if and only if the limit is below 2^31 |
| HpackTable.DynamicTable.EvictOldest | src/hpack.cpp:609-615 | The loop drops entries from the back exactly as eviction is specified |
| HpackTable.DynamicTable.AddToDynamicTable | src/hpack.cpp:617-628 | The object's insertion is the specified one, and on a consistent table leaves the longest fitting prefix |
| HpackTable.DynamicTable.SetMaxDynamicTableSize | src/hpack.cpp:603-607 | A new limit leaves the longest prefix that fits it |
| Hpack.FindStaticIndex | src/hpack.cpp:517-537 | The single pass returns the first full match, or failing that the first name match, or nothing |
| HpackStatic.StaticInOrder | src/hpack.cpp:17-79 | Written as lines, name, colon and value, the 61 entries of the static table increase byte by byte |
| Hpack.StringRoundTrip | src/hpack.cpp:477-510 | A plain encoded string is read back whole and the position moves just past it |
| Hpack.SizeUpdateTaken | src/hpack.cpp:687-692 | A table size update to any 32-bit value, anywhere in a block, is taken and the rest read with the new table |
| HpackForms.BlockReads | src/hpack.cpp:630-716 | For every table and every block in any forms (indexed, stored, not stored, never stored, named by index or anew, plain or Huffman strings, size updates), whoever encoded it: the decoder delivers exactly the headers it says, has the table behind it, and stops with the table so far at the first form that says nothing |
| HpackForms.StringReads | src/hpack.cpp:477-510 | A string is read as its text; a Huffman string is decoded if its codes are whole bytes and refused otherwise |
| HpackForms.LookupIsAddressed | src/hpack.cpp:630-646 | Indices count through the static table and on through the dynamic one, newest entry first |
| HpackForms.StatusFound | src/hpack.cpp:493-495 | The bytes 48 82 64 02 are the header ":status: 302" and store it at the size that appendix C.6.1 of RFC 7541 gives |
| HpackForms.BlockChosen | src/hpack.cpp:574-595 | Whatever is encoded, each header stands in the block as the index of the first static entry equal to it, or else as a stored literal under the index of the first entry of its name, or else with both strings plain |
| Hpack.BlockRoundTrip | src/hpack.cpp:574-716 | Decoding an encoded header list, from any table state, yields every header in order, shortened only where the static search saw a NUL, and the table those insertions give |
| Hpack.EndToEnd | src/hpack.cpp:574-716 | Decoding always succeeds, and gives back exactly the list if and only if no header is hit by the C-string comparison |
| Hpack.CanonIsIdentityIffNulSafe | src/hpack.cpp:517-537 | A header survives unchanged exactly when it is safe in that sense |
| Hpack.NulFreeIsSafe | src/hpack.cpp:517-537 | Headers without NUL bytes are always safe |
| Hpack.NulInNameIsLost | src/hpack.cpp:517-537 | A header that is not: a static name followed by a NUL |
| Hpack.TablesStayEqual | src/hpack.cpp:574-716 | Encoder and decoder that start with equal tables end with equal tables after any safe block |
| Hpack.Lockstep | src/hpack.cpp:541-716 | Over any sequence of blocks and common limit changes the decoder yields exactly the lists sent and both tables stay equal |
| HpackCodec.EncodeField | src/hpack.cpp:577-592 | One header is written as an index or a literal, and says whether it enters the table |
| HpackCodec.HpackEncoder.Encode | src/hpack.cpp:574-595 | The loop writes the specified block and moves the encoder's table accordingly |
| HpackCodec.HpackDecoder.ReadString | src/hpack.cpp:477-498 | Plain or Huffman, the string read is the specified one; malformed input fails |
| HpackCodec.HpackDecoder.LookupIndex | src/hpack.cpp:630-646 | An index finds the static entry, the dynamic entry, or nothing |
| HpackCodec.HpackDecoder.ReadLiteral | src/hpack.cpp:667-683 | Name by index or by value, then the value, with every failure of either |
| HpackCodec.HpackDecoder.Decode | src/hpack.cpp:648-716 | The loop over a block accepts, lists and stores in the table exactly what the specification says, also when it fails midway |
| Http2Frames.FrameRoundTrip | src/http2.cpp:422-442 | A built frame is read back whole, whatever follows it |
| Http2Frames.FrameLayout | src/http2.cpp:113-124 | Length, type, flags and stream stand at their places, most significant byte first |
| Http2Frames.StreamRoundTrip | src/http2.cpp:113-124 | A byte stream of frames is read back as exactly those frames |
| Http2Flow.SendWindowsConserved | src/http2.cpp:504-885 | In every run each live stream's send window is the initial window in force plus the credit granted to it minus the DATA written on it, the connection's is 65535 plus its credit minus all DATA, and neither exceeds 2^31-1 |
| Http2Flow.ReceiveWindowsConserved | src/http2.cpp:1029-1086 | In every run the receive windows are 65535 plus the increments sent minus the DATA received, padding and DATA for unknown or closed streams included, and stay between 0 and 65535 |
| Http2Flow.StreamsAccountedFor | src/http2.cpp:604-679 | Every stream ever created is live or ended, never both; the slot counter is the number of reserved streams; an invalid session has none |
| Http2Flow.WindowsReopen | src/http2.cpp:1029-1086 | After DATA accepted on an open stream both receive windows are at least 32767 again |
| Http2Flow.StreamStaysWithinCredit | src/http2.cpp:751-779 | If nothing else happens while a frame is being written, what a live stream has written and is writing stays within its initial window and credit, at every moment of every run |
| Http2Flow.CalmStaysWithinCredit | src/http2.cpp:751-779 | The same when anything may interleave except a SETTINGS frame that lowers the initial window during a write |
| Http2Flow.StreamCreditExactly | src/http2.cpp:504-779 | Over every run, what each live stream has written and is writing always stays within its credit if and only if every SETTINGS frame that is survived leaves the frames being written within their windows |
| Http2Flow.DebitsExactly | src/http2.cpp:763-779 | Over every run, no live stream ever has written more than its credit if and only if each frame still fits its window when its write has returned |
| Http2Flow.ShrinkDuringWriteOverdraws | src/http2.cpp:504-521 | A run in which the window shrinks to nothing while 16384 bytes are being written |
| Http2Flow.WindowSettingExactly | src/http2.cpp:504-521 | A SETTINGS frame with a new initial window is survived if and only if every stream's window stays between 0 and 2^31-1 |
| Http2Flow.ShrinkAfterWriteFails | src/http2.cpp:504-521 | A run in which a peer that lowers the initial window after a write ends the session |
| Http2Flow.ConnectionStaysWithinCredit | src/http2.cpp:751-779 | If no two sends overlap, all DATA written or being written stays within the connection's credit |
| Http2Flow.OverdraftExactly | src/http2.cpp:763-775 | Over every run, all DATA written or being written stays within the connection's credit if and only if every send began with the frames being written and its own fitting the connection window together |
| Http2Flow.InterleavedSendsOverdraw | src/http2.cpp:763-775 | A run in which four overlapping sends put 65536 bytes against a credit of 65535 |
| Http2Runs.ReceiveHandled | src/http2.cpp:805-1093 | Whatever frame arrives, the windows change by exactly the credit, data and initial-window shift that the frame carries and the increments sent for it, or the session fails |
| Http2Runs.SettingsHandled | src/http2.cpp:808-842 | A SETTINGS frame shifts every stream's window by the change of the initial window, entry by entry, and leaves the connection's alone |
| Http2Runs.WindowUpdateHandled | src/http2.cpp:843-885 | A WINDOW_UPDATE adds its increment to one window, or fails where it would pass 2^31-1 or is zero |
| Http2Runs.DataHandled | src/http2.cpp:1029-1086 | A DATA frame charges its whole payload to the windows in each of the open, unknown and closed cases |
| Http2Runs.StepInv | src/http2.cpp:604-1119 | Each action of the machine keeps all the window laws and the stream bookkeeping |
| Http2Runs.InvHolds | src/http2.cpp:604-1119 | Hence they hold after every run |
| Http2Send.SendHeaderBlock | src/http2.cpp:714-742 | The loop cuts the block into exactly the specified HEADERS and CONTINUATION frames |
| Http2Send.HeaderFramesCarryBlock | src/http2.cpp:714-742 | The frames together carry the block, none is larger than allowed, END_HEADERS is on the last one only and END_STREAM on the first |
| Http2Send.BlockRejoins | src/http2.cpp:943-1028 | However a block was cut, the receiver hands exactly that block to the decoder with END_STREAM kept |
| Http2Send.HeadersArrive | src/http2.cpp:943-1028 | A header list that is encoded, cut, received and decoded arrives as the same list, as the headers if they were still open and behind the trailers otherwise, ends the stream iff it should, and leaves both tables equal |
| Http2Send.SendChunk | src/http2.cpp:751-779 | The frames of a chunk concatenate to it, each fits the frame size and both windows seen when it was sent, none is empty, and END_STREAM is on the last or nowhere; giving up leaves a prefix |
| Http2Send.SendChunks | src/http2.cpp:789-802 | The same for a body of unknown size read chunk by chunk |
| Http2Send.SendBody | src/http2.cpp:744-803 | A completed body is exactly what its frames carry, END_STREAM ends it once, a failed one was a prefix without END_STREAM, and every frame fits the windows seen at one of the checks, in order |
| Http2Upload.LookDecidesSend | src/http2.cpp:751-779 | A frame fits the windows the loop sees in a session state if and only if the machine may begin that send in that state |
| Http2Upload.BodyIsARun | src/http2.cpp:744-803 | Frames that passed the loop's checks in the states of a run, with anything possible going on before each and while it is written, form a legal run with it, and stand on the stream whole, in order, behind what was there |
| Http2Upload.Upload | src/http2.cpp:744-803 | The frames the sending loop returns, if what it saw are states of one run, make that run legal, whether the stream lives on or is ended under way; a completed body stands on the stream exactly, ended once, and one cut short is a prefix |
| Http2Upload.ReceiveSilent | src/http2.cpp:805-1093 | No frame that arrives makes the session write DATA on a stream or forget one |
| Http2Tables.ConformsExactly | src/http2.cpp:805-1013 | In every run the decoder's table is always that of a decoder that reads every completed block and nothing else, if and only if each dropped block would have left the table as it was and each size setting leaves it so |
| Http2Tables.ResizesExactly | src/http2.cpp:828-830 | Table sizes in a SETTINGS frame leave the table as it was iff none drops an entry and the last is the old limit |
| Http2Tables.ReceiveTouches | src/http2.cpp:805-1013 | For any frame: which block it completes, whether that is decoded, and what sizes it sets |
| Http2Tables.SettingsTouch | src/http2.cpp:818-838 | Of several values for a parameter the last before a bad frame size is in force, for both tables, the frame size and the number of streams |
| Http2Tables.DroppedBlockEndsSession | src/http2.cpp:989-1010 | For every header: a block storing it arrives on a cancelled stream, one referring to it on another; a conforming decoder reads the header, the session ends |
| Http2Tables.DecoderResized | src/http2.cpp:828-830 | Every HEADER_TABLE_SIZE but the default leaves the decoder with a limit the peer's encoder does not have |
| Http2Tables.FrameBoundExactly | src/http2.cpp:432-435 | In every run no frame the client allows is refused for its size, and the bound is always the client's own iff the peer never announced another frame size |
| Http2Tables.LargeFrameTaken | src/http2.cpp:432-435 | For every larger size the peer may announce, frames of that size are taken |
| Http2Effects.GoAwayEnds | src/http2.cpp:895-906 | Exactly the streams above the announced one end, with the announced code; the others are as they were, nothing is written, and no stream can be opened |
| Http2Effects.ShortGoAwayEnds | src/http2.cpp:895-906 | A GOAWAY too short to name a stream ends the session and cancels all streams |
| Http2Effects.GoAwayHonoured | src/http2.cpp:604-906 | In every run, after a GOAWAY no stream above the announced one ever lives |
| Http2Effects.SlotsExactly | src/http2.cpp:451-633 | In every run the slots in use are those of exactly the streams the peer has not ended, and a stream can be opened if and only if the session is alive, no GOAWAY has come and fewer are in use than the peer allows |
| Http2Effects.ResetEnds | src/http2.cpp:907-918 | A reset ends its stream with its code and does nothing else |
| Http2Effects.PingEchoed | src/http2.cpp:886-894 | Eight bytes are sent back as they came; an answer is not answered |
| Http2Effects.PromiseRefused | src/http2.cpp:919-942 | Every promised stream but number 0 is reset, padding or not |
| Http2Effects.UnpadInverts | src/http2.cpp:1062-1076 | What is left of padded data is the data |
| Http2Effects.UnpadRefusesExactly | src/http2.cpp:1062-1076 | A payload is refused iff it is padded data in no way, that is iff its count exceeds what follows |
| Http2Effects.FragmentInverts | src/http2.cpp:953-972 | What is left of a block with priority fields and padding, either, both or none, is the block |
| Http2Effects.DataStored | src/http2.cpp:1029-1086 | Data for an open stream is added to its body without the padding, ends it iff flagged, and touches no other stream |
| Http2Effects.LateDataAnswered | src/http2.cpp:1029-1053 | Data for a stream the peer has ended resets it; data for an unknown one is dropped |
| Http2Effects.UpdatesExactly | src/http2.cpp:484-502 | Accepted data is answered with a window update exactly for each window left below half, which is thereby full again |
| Http2Effects.OverrunEnds | src/http2.cpp:484-491 | Data beyond a window ends the session with FLOW_CONTROL_ERROR |
| Http2Effects.CreditTaken | src/http2.cpp:843-885 | Credit is added to its window unless that would pass 2^31-1, which ends the session; for an unknown stream it is dropped |
| Http2Effects.NoCreditResets | src/http2.cpp:849-862 | An update of nothing resets its stream |
| Http2Effects.InitialWindowTaken | src/http2.cpp:504-521 | A new initial window moves every stream's by the difference if and only if all stay in range, and otherwise ends the session |
| Http2Effects.BlockOutcomes | src/http2.cpp:990-1027 | What a whole header block does for an open, an ended and an unknown stream, good or bad |
| Http2Effects.FailAnnounces | src/http2.cpp:523-540 | A failure is announced once with its code, and all streams end with it |
| Http2Effects.ViolationEnds | src/http2.cpp:805-988 | Frames of a wrong size, on stream 0 or out of sequence end the session with the code of section 7 of RFC 7540 |
| Http2Effects.UnknownIgnored | src/http2.cpp:1087-1092 | Priorities and unknown frames change nothing |
| Http2Effects.CreatedStream | src/http2.cpp:604-633 | A new stream has the next number but one after the last, both initial windows, and nothing received |
| Http2Effects.ReleasedStream | src/http2.cpp:635-652 | Giving up a stream resets it on the wire iff asked to and the peer has not ended it, and records how it ended |
| Http2Effects.ClosedSession | src/http2.cpp:582-602 | Closing announces no error and the streams below the next number, and cancels all |
| Http2Effects.ReaderLeaves | src/http2.cpp:1095-1119 | When the reader stops, all streams are cancelled and nothing is written |
| Http2Effects.OpeningBytes | src/http2.cpp:542-570 | The opening SETTINGS frame, byte for byte; the window it announces is the one the client starts with |
| Http2Effects.AnswerBytes | src/http2.cpp:27-60 | The acknowledgements, resets, GOAWAYs and window updates are the bytes that sections 6 and 7 of RFC 7540 give |
| Http2Effects.ArrivingBytes | src/http2.cpp:27-46 | A padded header block with priority, a continuation, a promise and last data, read from their bytes |
| Http2Client.Http2ClientSession.constructor | src/http2.cpp:542-580 | A started session is the initial state of the machine |
| Http2Client.Http2ClientSession.CreateStream | src/http2.cpp:604-633 | Creates the next stream exactly when a slot, the session and the GOAWAY limit allow it, and leaves the session consistent |
| Http2Client.Http2ClientSession.ReleaseStream | src/http2.cpp:635-652 | Ends one stream, with a reset unless it already ended, and returns its slot once |
| Http2Client.Http2ClientSession.FinishStreamError | src/http2.cpp:654-664 | Ends one stream with an error and returns its slot |
| Http2Client.Http2ClientSession.FinishStreamsWhere | src/http2.cpp:666-679 | Ends exactly the selected streams, though each ending edits the map being walked |
| Http2Client.Http2ClientSession.FailConnection | src/http2.cpp:523-540 | Announces the failure once and leaves no stream behind |
| Http2Client.Http2ClientSession.ShiftWindows | src/http2.cpp:512-519 | Succeeds iff every shifted window stays in range, and then has shifted all of them |
| Http2Client.Http2ClientSession.ApplyInitialWindowSize | src/http2.cpp:504-521 | Shifts all windows or fails the session; a partly shifted map leaves no trace |
| Http2Client.Http2ClientSession.HandleSettings | src/http2.cpp:808-842 | The six-byte loop applies the settings in order, going on after a window that fails the session and stopping only at a bad frame size, and acknowledges unless it stopped |
| Http2Client.Http2ClientSession.HandleWindowUpdate | src/http2.cpp:843-885 | Takes the step of the machine in all its length, zero and overflow cases |
| Http2Client.Http2ClientSession.HandleGoAway | src/http2.cpp:895-906 | Ends exactly the streams above the announced one |
| Http2Client.Http2ClientSession.HandleRstStream | src/http2.cpp:907-918 | Ends the reset stream |
| Http2Client.Http2ClientSession.HandlePushPromise | src/http2.cpp:919-942 | Refuses the promised stream |
| Http2Client.Http2ClientSession.HandleHeaders | src/http2.cpp:947-975 | Strips padding and priority and starts, or completes, a header block |
| Http2Client.Http2ClientSession.HandleContinuation | src/http2.cpp:976-988 | Extends the block only for the stream that started it |
| Http2Client.Http2ClientSession.CompleteBlock | src/http2.cpp:989-1028 | Decodes the collected block for a live stream, drops it for an unknown one |
| Http2Client.Http2ClientSession.HandleData | src/http2.cpp:1029-1086 | Charges the windows in all branches, stores the unpadded body and refills |
| Http2Client.Http2ClientSession.StoreData | src/http2.cpp:484-502 | Accepts iff neither window is overrun; then both are charged and refilled below half |
| Http2Client.Http2ClientSession.HandleFrame | src/http2.cpp:805-1093 | Every frame takes the object through the step of the machine, and the object stays consistent |
| ChannelRelay.GateFollowsRequest | src/data_channel.cpp:368-373 | In every run of a line of channels, the gate at the other end of a pair without plugs, after obeying the commands under way, is shut iff a pause is asked for, and those commands strictly alternate |
| ChannelRelay.ShutMeansPaused | src/data_channel.cpp:357-378 | In every run, with any exchanges, a gate that ends up shut once everything on its way along the joined channels has been obeyed has a receiver on that way that asks for a pause |
| ChannelRelay.FoundedExactly | src/data_channel.cpp:1809-1824 | In every run a pause always has more than nothing (or more than half the capacity) queued or held behind it, if and only if each exchange finds at both ends no pause on or a packet of that size held |
| ChannelRelay.DrainedMeansOpen | src/data_channel.cpp:511-525 | If every exchange found its ends so, receivers that have read everything, with no command under way, leave the gate open at the far end of the line, whatever the capacities |
| ChannelRelay.ExchangeLeavesGateShut | src/data_channel.cpp:1809-1824 | Otherwise, for all capacities with a threshold: a run that ends with every packet read, nothing queued, held or under way, and the sender's gate shut |
| ChannelRelay.AbandonedExactly | src/data_channel.cpp:1809-1824 | An exchange leaves an end plugged and drained with its pause on iff the pause was on and no packet was held |
| ChannelRelay.AbandonedForever | src/data_channel.cpp:1809-1824 | Whatever happens afterwards, that pause stays on |
| ChannelRelay.BareExactly | src/data_channel.cpp:1825-1829 | In every run joined channels always have nothing queued and nothing to store if and only if no exchange found a packet waiting to be stored |
| ChannelRelay.HeldIsLeftBehind | src/data_channel.cpp:1825-1829 | For every size and pair, a run in which such a packet is queued at a joined channel and not sent on |
| ChannelRelay.AboveHalfExactly | src/data_channel.cpp:368-373 | With no packet waiting to be stored a pause implies more than half the capacity is queued, in every run whose exchanges find no pause on or more than half held, if and only if three times each capacity fits 32 bits |
| ChannelRelay.CommandsExactly | src/data_channel.cpp:357-525 | In every step of every run an end without a plug says SLOW_DOWN iff a packet finds the threshold reached and no pause on, and GO_THROUGH iff a read with a pause on leaves at most half the capacity; above half the pause stays on |
| ChannelRelay.PausesAreEarned | src/data_channel.cpp:368-525 | In every run the bytes taken out of a queue are at least the number of pauses ended times the bytes from the threshold down to half |
| ChannelRelay.LatchExactly | include/qtng/locks.h:629-700 | In every run a packet may be stored iff the queue is below its capacity |
| ChannelRelay.PausedBelowHalf | src/data_channel.cpp:368-373 | For every larger capacity, a run that pauses the peer below half |
| ChannelRelay.StepKeeps | src/data_channel.cpp:357-378 | Each send, arrival, passing on, store, read and exchange keeps gates, requests and commands in step along the line |
| ChannelFlow.EmptiedFoundedExactly | src/data_channel.cpp:1814-1821 | Emptying a queue leaves a pause its reason iff no pause is on or enough is held |
| ChannelFlow.AsksExactly | src/data_channel.cpp:368-373 | A pause is asked for iff none is on and three quarters of the capacity are queued |
| ChannelFlow.LetsThroughExactly | src/data_channel.cpp:520-523 | The peer is let through iff a pause is on and at most half the capacity is left |
| ChannelFlow.DataChannel.MoveAll | src/data_channel.cpp:1814-1821 | Every packet of the queue goes out over the other channel, in order, empty ones dropped; the pause and the gate are as before |
| ChannelFlow.DataChannel.Exchange | src/data_channel.cpp:1809-1824 | Both queues are sent on over the other channel and each channel is plugged into the other |
| ChannelFlow.DataChannel.HandleIncoming | src/data_channel.cpp:357-374 | Before a packet is stored, the threshold decides whether the peer is asked to slow down, once; a plugged channel passes it on instead, and fails if it is empty |
| ChannelFlow.DataChannel.StoreHeld | include/qtng/locks.h:629-648 | The packet goes to the end of the queue, whose byte count and full latch follow |
| ChannelFlow.DataChannel.HandleGateCommand | src/data_channel.cpp:639-644 | SLOW_DOWN shuts the gate, GO_THROUGH opens it; a plugged channel passes either on and keeps its gate |
| ChannelFlow.DataChannel.RecvPacket | src/data_channel.cpp:511-525 | The oldest packet is taken and the peer is let through when a pause is on and half is free; an empty packet skips that; on an empty queue it waits, or gives up with nothing if the channel is in error |
| ChannelPaths.RouteIsPath | src/data_channel.cpp:1007-1023 | A packet sent from a nested channel reaches the socket with the whole path of channel numbers in front |
| ChannelPaths.UnpackExactly | src/data_channel.cpp:98-119 | A command is accepted iff it is a number of a command alone or with a channel, as that command requires, and means what was packed |
| ChannelPaths.DestroyUnpacks | src/data_channel.cpp:60-66 | Closing a channel asks the peer to destroy that channel |
| ChannelPaths.CleanRequestIsPath | src/data_channel.cpp:1037-1075 | The checks composed on the way up pick exactly the packets whose path extends the closed channel's, at any depth |
| ChannelPaths.PicksOwnedPackets | src/data_channel.cpp:938-1075 | On a path without reserved numbers a data or command packet of any channel is picked iff that channel is the closed one or below it |
| ChannelPaths.PicksOwnedExactly | src/data_channel.cpp:938-1075 | For every closed path, exactly the packets of that channel and those below it are picked if and only if no number on the path is reserved |
| ChannelPaths.ReservedNumberMisleads | src/data_channel.cpp:1037-1055 | For each reserved number anywhere on a path, a packet of a channel above that is picked |
| ChannelPaths.DestroyKeptExactly | src/data_channel.cpp:657-663 | The DESTROY request just queued is picked iff the closing channel's number is the command channel's |
| ChannelPaths.ReservedNumberTakesParentData | src/data_channel.cpp:1037-1055 | A channel numbered like the data channel takes its parent's data packets with it |
| ChannelSender.FramesArrive | src/data_channel.cpp:735-860 | The peer reads back exactly the packets written, with their channel numbers, in order |
| ChannelSender.DeliversExactly | src/data_channel.cpp:820-860 | What is delivered and how it ends: the input is the delivered packets, none above the limit, and a rest that is too short for a head, announces too much, or holds less than it announces, and every such input is delivered so |
| ChannelSender.FrameLayout | src/data_channel.cpp:784-791 | The length and then the channel stand in front of the packet, most significant byte first |
| ChannelSender.DoReceive | src/data_channel.cpp:820-860 | The receive loop delivers packets up to the first short, oversized or truncated one, and names that failure |
| ChannelSender.SocketSender.SendPacketRaw | src/data_channel.cpp:691-733 | Accepts iff the channel works, the packet is non-empty and fits and there is room; each waiter gets an event of its own; all events stay accounted for |
| ChannelSender.SocketSender.Collect | src/data_channel.cpp:753-772 | The batch is the longest run from the front that fits one write, at least one packet; what does not fit stays first in the queue |
| ChannelSender.SocketSender.Serialize | src/data_channel.cpp:782-791 | The buffer holds the frames of the batch |
| ChannelSender.SocketSender.FinishWrite | src/data_channel.cpp:793-818 | A full write signals success to the batch; a short one breaks the channel and signals failure to queue and batch |
| ChannelSender.SocketSender.Leave | src/data_channel.cpp:743-751 | When the sending coroutine returns, its batch has failed |
| ChannelSender.SocketSender.Abort | src/data_channel.cpp:892-913 | The first abort closes the queue and fails every waiter in it; another changes nothing |
| ChannelSender.SocketSender.CleanSendingPacket | src/data_channel.cpp:950-972 | Removes exactly the picked packets, fails their waiters and keeps the rest in order |
| ChannelSender.SocketSender.CloseChannel | src/data_channel.cpp:938-1075 | Closing a channel at any depth removes exactly the packets whose path extends its own, and leaves its DESTROY request last if the sender works, the request fits and its number is not the command channel's; nothing happens if an ancestor is broken or the parent keeps nothing under the number |
| ChannelSender.SocketSender.AllSignalledOnce | src/data_channel.cpp:735-818 | Once the sender has returned, every event handed out was signalled exactly once, with success exactly if its packet was written in full |
| ChannelSender.PurgeIsByPath | src/data_channel.cpp:950-1075 | Purging by the composed checks is purging by path |
| ChannelAbort.Channel.Abort | src/data_channel.cpp:892-926 | On any graph of channels it terminates with the channel in error, and the graph is the one the specified abort leads to; a channel already in error changes nothing |
| ChannelAbort.Channel.ReleaseAll | src/data_channel.cpp:313-355 | The common part of an abort takes the specified stages in order |
| ChannelAbort.Channel.ReleasePlugged | src/data_channel.cpp:316-319 | The plugged channel is aborted and unplugged |
| ChannelAbort.Channel.Unblock | src/data_channel.cpp:326-332 | Receivers, takers and gated senders are released |
| ChannelAbort.Channel.VisitSubs | src/data_channel.cpp:333-339 | The walk visits the sub-channels in the order of their numbers although aborts strike entries off the map being walked |
| ChannelAbort.Channel.VisitPending | src/data_channel.cpp:346-354 | Unclaimed channels are cut loose and aborted one after the other |
| ChannelAbort.Channel.FailAndDetach | src/data_channel.cpp:1025-1034 | The channel enters its error state and the parent strikes off whatever it keeps under the number |
| ChannelAbort.Channel.MakeChannel | src/data_channel.cpp:450-464 | A channel is made under the next number, replacing whatever stands there, unless this one is broken |
| ChannelAbort.Channel.HandleMake | src/data_channel.cpp:584-597 | The peer's channel is registered and queued, the oldest unclaimed ones are dropped above the limit; refused exactly if the number is registered |
| ChannelAbort.Channel.EnqueuePendingChannel | src/data_channel.cpp:416-430 | Above the limit the oldest unclaimed channels are aborted, whatever those aborts do to this one |
| ChannelAbort.Channel.HandleDestroy | src/data_channel.cpp:617-638 | The number is struck off, and the first unclaimed channel with it, or else the registered one, is cut loose and aborted |
| ChannelAbort.Channel.TakeChannel | src/data_channel.cpp:465-480 | The oldest unclaimed channel, or wake-up entry, is handed out |
| ChannelAbort.Channel.TakeNumber | src/data_channel.cpp:482-495 | The first unclaimed channel with the number is handed out and leaves the queue |
| ChannelSpread.AbortReachesAll | src/data_channel.cpp:313-355 | If no working channel has a working namesake in its place, every channel reachable through plugs, sub-channels and pending channels, cycles included, is in error and released after the abort |
| ChannelSpread.SpreadTwice | src/data_channel.cpp:313-355 | Effects of nested aborts compose |
| ChannelEffects.AbortCodes | src/data_channel.cpp:313-355 | Whatever the graph, every channel an abort newly puts into error has the abort's reason, and the others keep theirs |
| ChannelEffects.TrimmedKeepsNewest | src/data_channel.cpp:416-430 | Above the limit exactly the newest unclaimed channels are kept, and those dropped are in error |
| ChannelEffects.FirstIsTaken | src/data_channel.cpp:482-508 | The first unclaimed channel with a number is found, and exactly that entry leaves the queue |
| ChannelSpread.AbortSpreads | src/data_channel.cpp:313-355 | On any graph: each channel newly in error is released, its plug and unclaimed channels are in error, and each sub-channel is in error or was struck off by an aborted channel of the same parent and number; all others only lost entries that way |
| ChannelSpread.StrikesExactly | src/data_channel.cpp:1025-1044 | The beginning of every possible abort strikes off only channels in error if and only if each working channel's place with its parent is empty, its own, or held by one in error |
| ChannelSpread.BeganStrikesExactly | src/data_channel.cpp:1025-1044 | The same for one channel |
| ChannelRuns.RegistrationExactly | src/data_channel.cpp:431-638 | In every run, every working channel always stands under its number with its parent if and only if no channel is made under a number that a working channel has, and no DESTROY request meets an unclaimed channel that is not the registered one |
| ChannelRuns.StepGood | src/data_channel.cpp:431-638 | Each step keeps channels in error released and entries with their owners, and keeps all registered exactly if it is such a step |
| ChannelNumbers.CarefulAbortReachesBelow | src/data_channel.cpp:313-355 | After such a run, aborting a channel puts every channel below it into error, claimed or not |
| ChannelNumbers.CarefulAbortReachesAll | src/data_channel.cpp:313-355 | And everything reachable from it is in error and released |
| ChannelNumbers.TakenByPeer | src/data_channel.cpp:450-462 | A channel that has made fewer than 2^32 others finds its next number taken only by one the peer made |
| ChannelLoss.SharedNumberSurvives | src/data_channel.cpp:450-462 | A run in which a channel made under a number the peer had chosen is reachable, and works on after the root was aborted |
| ChannelLoss.StaleDestroySurvives | src/data_channel.cpp:617-638 | A run in which a channel the peer destroyed works on after the root was aborted, because the request was spent on one closed before |
| KademliaId.XorIds | src/kademlia.cpp:163-176 | The byte loop computes the XOR of two valid identifiers, and the invalid one otherwise |
| KademliaId.XorInjective | src/kademlia.cpp:163-176 | Two identifiers at the same XOR from a third are equal |
| KademliaId.LexIsNumeric | src/kademlia.cpp:109-115 | Comparing equally long byte strings compares the numbers they spell |
| KademliaId.ComparesDistance | src/kademlia.cpp:109-115 | `DistanceLess` orders by XOR distance |
| KademliaId.CommonPrefixLength | src/kademlia.cpp:178-199 | The nested loops find 159 minus the position of the highest bit of the distance, 160 for equal identifiers, 0 for invalid ones |
| KademliaId.BucketFor | src/kademlia.cpp:201-208 | The bucket index i satisfies 2^i <= distance < 2^(i+1); it is -1 exactly for the own identifier, and the last bucket for an invalid one |
| KademliaTable.SortKeeps | src/kademlia.cpp:436-441 | Sorting by distance keeps the nodes and orders them |
| KademliaTable.PrefixIsNearest | src/kademlia.cpp:436-446 | The first entries of the sorted list are exactly the nearest ones |
| KademliaTable.OfferKeeps | src/kademlia.cpp:377-403 | An accepted offer keeps buckets by distance, at most eight per bucket, ordered by latest offer, each entry the latest offered |
| KademliaTable.EraseKeeps | src/kademlia.cpp:421-434 | Removing an identifier removes just it and keeps all that |
| KademliaTable.OfferedOnly | src/kademlia.cpp:377-403 | An accepted node is in the table, in place of any other with its identifier; every other node stays |
| KademliaTable.RemovedOnly | src/kademlia.cpp:421-434 | Removing an identifier takes its entry out of the table, and no other |
| KademliaTable.TableDistinct | src/kademlia.cpp:377-457 | In a sound table all identifiers are valid, distinct and not the own one |
| KademliaTable.RoutingTable.constructor | src/kademlia.cpp:362-366 | A new table is empty and sound |
| KademliaTable.RoutingTable.Offer | src/kademlia.cpp:377-403 | Accepts iff valid, not self, and known or with room; then the node is first in its bucket; refused for lack of room it names the entry offered longest ago |
| KademliaTable.RoutingTable.Replace | src/kademlia.cpp:405-419 | The evicted node leaves only the newcomer's bucket, then the newcomer is offered; the table stays sound |
| KademliaTable.RoutingTable.Remove | src/kademlia.cpp:421-434 | Exactly the identifier is gone; the table stays sound |
| KademliaTable.RoutingTable.Load | src/kademlia.cpp:475-481 | The table becomes what offering the nodes in order to an empty one gives |
| KademliaTable.RoutingTable.AllNodes | src/kademlia.cpp:448-457 | Bucket by bucket, in order |
| KademliaTable.RoutingTable.Closest | src/kademlia.cpp:436-446 | The exact nearest min(count, size) nodes, nearest first, none twice |
| KademliaLookup.IterativeLookup | src/kademlia.cpp:1321-1425 | Against any replies: terminates; goes in rounds, each asking exactly the three nearest not yet asked among the 32 nearest heard of; goes on as long as a round teaches an identifier and stops only when one does not or all 32 have been asked; asks no identifier twice and only nodes it has heard of; returns exactly the eight nearest of all identifiers ever seen; and takes exactly the silent nodes out of the routing table |
| KademliaLookup.RoundSettles | src/kademlia.cpp:1409-1413 | Cutting the list to 32 each round never loses a node nearer than one kept |
| KademliaLookup.SettledGivesNearest | src/kademlia.cpp:1416-1422 | The first eight of such a list are the eight nearest of everything seen |
| KademliaLookup.TruncateDrops | src/kademlia.cpp:1410-1413 | Only farther nodes are dropped |
| KademliaLookup.SeenGrows | src/kademlia.cpp:1336-1414 | A round that goes on has used up at least one of finitely many identifiers |
| KademliaLookup.AddContacts | src/kademlia.cpp:1399-1407 | Exactly the unseen contacts are appended; the round goes on iff there was one |
| KademliaLookup.SelectQueries | src/kademlia.cpp:1339-1349 | Exactly the three nearest nodes of the list not asked yet, or all if they are fewer |
| KademliaLookup.QueryOne | src/kademlia.cpp:1356-1407 | One query is recorded with its reply, a silent node leaves the routing table, and the list keeps its invariant |
| KademliaLookup.QueryRound | src/kademlia.cpp:1355-1408 | A round asks the chosen nodes in order, keeps the list's invariant, and takes the silent ones out of the table |
| BencodeRoundTrip.RoundTrip | src/bencode.cpp:861-887 | For every value without Invalid parts and every limit, decoding the encoding gives the value if its text lengths plus one per item and entry are within the limit, and Invalid otherwise |
| BencodeRoundTrip.ValueAt | src/bencode.cpp:383-498 | The same at any position of any input and with any amount already charged |
| BencodeRoundTrip.IntAt | src/bencode.cpp:257-328 | Every 64-bit integer is read back |
| BencodeRoundTrip.TextAt | src/bencode.cpp:330-381 | Every text is read back iff it can be charged |
| BencodeRoundTrip.PutLast | src/bencode.cpp:447-447 | Keys that arrive in order are added at the end of the dictionary |
| BencodeRoundTrip.Bep3Examples | src/bencode.cpp:464-498 | The examples of BEP-3 are written as it gives them |
| BencodeNormal.TextIsCanonical | src/bencode.cpp:330-373 | A text is accepted in exactly one spelling, the one it is written in: no leading zero, at most ten digits, all bytes present, and charged |
| BencodeNormal.IntIsCanonical | src/bencode.cpp:257-319 | An accepted integer is the number spelled, cut off at the ends of the 64-bit range, and its bytes are the way it is written if and only if they are not "-0" and the number is in that range |
| BencodeNormal.PutKeeps | src/bencode.cpp:447-447 | Storing under any key, new or repeated, keeps the key order and charges no more than was paid |
| BencodeNormal.AcceptedIsProper | src/bencode.cpp:383-462 | Every accepted value, whatever the input, is proper and was charged at least its weight, within the limit |
| BencodeNormal.DecodingIsStable | src/bencode.cpp:861-887 | Encoding what was decoded and decoding it again under the same limit gives the same value |
| BencodeForms.LanguageExactly | src/bencode.cpp:257-462 | The decoder gives a value if and only if the input spells an acceptable form of that meaning whose charge is within the limit: integers of at most twenty characters without leading zeros, texts under lengths of at most ten digits, lists and dictionaries of these, and nothing behind |
| BencodeForms.SpelledIsDecoded | src/bencode.cpp:861-887 | Every acceptable form is decoded to its meaning if its charge, replaced entries included, is within the limit, and to Invalid otherwise |
| BencodeForms.FormTaken | src/bencode.cpp:383-462 | The same at any position of any input and with any amount already charged |
| BencodeForms.FormOf | src/bencode.cpp:383-462 | Whatever was read, anywhere in an input, was the spelling of an acceptable form, with its meaning and its charge |
| BencodeForms.WrittenExactly | src/bencode.cpp:464-498 | A value is written to its end if and only if nothing inside it is Invalid |
| BencodeForms.ItemsStop | src/bencode.cpp:464-498 | At an Invalid item the output ends behind the items before it |
| BencodeForms.EntriesStop | src/bencode.cpp:464-498 | At an Invalid entry it ends behind that entry's key |
| BencodeCanonical.CanonicalExactly | src/bencode.cpp:383-498 | Every accepted input is the encoding of its value if and only if a scan over its bytes finds no "-0", no integer beyond 64 bits, and strictly increasing keys in every dictionary |
| BencodeCanonical.CanonicalBytes | src/bencode.cpp:383-498 | A value spelled canonically, anywhere in an input, is what its bytes are written as |
| BencodeCanonical.EncodingIsCanonical | src/bencode.cpp:464-498 | The encoding of every proper value, anywhere in an input, is spelled canonically |
| BencodeCanonical.MinusZero | src/bencode.cpp:257-319 | "i-0e" is read as 0, which is written "i0e" |
| BencodeCanonical.BeyondRange | src/bencode.cpp:257-319 | 2^63 is read as 2^63-1, which is written differently |
| BencodeCanonical.TwoEntries | src/bencode.cpp:423-449 | A dictionary of any two entries is accepted whatever the order of its keys, the second value winning for equal keys, and is its value's encoding if and only if the first key sorts below the second |
| BencodeCanonical.KeysOutOfOrder | src/bencode.cpp:423-449 | Two inputs, with swapped and with repeated keys, that are accepted and written differently |
| BencodeExcerpt.ExcerptDecodes | src/bencode.cpp:383-462 | The bytes of an accepted value, taken out of their surroundings, decode to the same value under the same limit |
| BencodeReader.BencodeReader.ReadBytes | src/bencode.cpp:128-166 | Reads exactly the next bytes or fails; the device stays ahead by exactly the cached byte, however it hands bytes over |
| BencodeReader.BencodeReader.PeekByte | src/bencode.cpp:191-232 | Shows the next byte without moving the logical position |
| BencodeReader.BencodeReader.Account | src/bencode.cpp:247-255 | Charges iff the limit affords it |
| BencodeReader.BencodeReader.ReadInteger | src/bencode.cpp:257-319 | Accepts and yields exactly the specified integers |
| BencodeReader.BencodeReader.ReadText | src/bencode.cpp:330-373 | Accepts and yields exactly the specified texts and charges them |
| BencodeReader.BencodeReader.ReadValue | src/bencode.cpp:383-462 | The recursive reader accepts, yields, charges and stops exactly as the parser says |
| BencodeReader.BencodeReader.ReadItems | src/bencode.cpp:400-422 | So does its list loop |
| BencodeReader.BencodeReader.ReadEntries | src/bencode.cpp:423-449 | So does its dictionary loop, later keys replacing earlier ones |
| BencodeReader.DecodeAll | src/bencode.cpp:868-887 | The whole input must be one value |
| BencodeReader.WriteValue | src/bencode.cpp:464-498 | The writer's loops produce the encoding, and stop where a value is Invalid |
| BencodeSkip.ParsersAgree | src/bt.cpp:119-167 | On every input and position where the decoder accepts a value, a skip with unbounded lengths stops at the same byte |
| BencodeSkip.SkipEncoded | src/bt.cpp:119-167 | An encoded value is skipped whole, whatever surrounds it |
| BencodeScan.SkipBencodeValue | src/bt.cpp:119-167 | The recursive loops, with 32-bit lengths and 64-bit positions, stop, refuse or go on exactly as the scan says, for any number of steps |
| BencodeScan.ReadNumber | src/bt.cpp:138-144 | Wrapping after each digit gives the whole number wrapped to 32 bits |
| BencodeScan.TextStepExactly | src/bt.cpp:133-147 | A step over a text is the unbounded skip's, and goes forwards, if the length is below 2^31; a step over a longer one never is, and goes forwards exactly if the wrapped length outweighs the bytes read |
| BencodeScan.ScanMeetsSkip | src/bt.cpp:119-167 | Wherever the unbounded skip finds an end, the scan ends there |
| BencodeScan.ScanFollows | src/bt.cpp:119-167 | Unless the unbounded skip comes to a text that only a wrapped length steps over, the scan ends with its answer |
| BencodeWalk.RefusedExactly | src/bt.cpp:119-167 | The recursive scan refuses if and only if the path of single steps, with what is still wanted on a stack, comes to a byte that is not what is wanted |
| BencodeWalk.ScanAnswersExactly | src/bt.cpp:119-167 | The scan gives the unbounded skip's answer if and only if that does not come to such a text, or the path over it strands |
| BencodeScan.ScanEndsExactly | src/bt.cpp:119-167 | A scan ends for some number of steps if and only if it ends within three for each byte and three more |
| BencodeScan.ScanAgrees | src/bt.cpp:119-167 | Wherever the decoder accepts a value, the scan ends, at the same byte |
| BencodeScan.MoreFuel | src/bt.cpp:119-167 | An answer once reached is the answer for every larger number of steps |
| BencodeScan.EndlessScan | src/bt.cpp:133-166 | On "l4294967285:e" no number of steps is enough |
| TorrentInfo.ExtractInfoDict | src/bt.cpp:169-198 | The key loop, substrings with wrapped counts included, cuts out what the specification cuts out |
| TorrentInfo.InfoKey | src/bt.cpp:193-193 | The key looked for is the one a torrent file writes as "4:info" |
| TorrentInfo.InfoExactly | src/bt.cpp:169-198 | From every torrent the decoder accepts the bytes of the first "info" value are cut out while the decoder keeps the last; the bytes decode to the decoder's info dictionary if and only if the two have the same value, and always if there is one such key |
| TorrentInfo.FirstIsCut | src/bt.cpp:169-198 | The cut bytes are those of the first member with the key, however many there are |
| TorrentInfo.LastIsKept | src/bencode.cpp:423-449 | The decoder's entry for any key is the last member with that key |
| TorrentInfo.RepeatedInfo | src/bt.cpp:169-198 | For any two values under a repeated "info" key the first is cut out and the second decoded |
| TorrentInfo.RangeIsSubstring | src/bt.cpp:181-195 | A range, forwards or backwards, is the substring with the 64-bit difference as its count |
| TorrentInfo.MoreExtracted | src/bt.cpp:169-198 | What is cut out, or that nothing is, does not depend on the number of steps allowed |
| TorrentInfo.RefusedCutsNothing | src/bt.cpp:169-198 | Where the scan refuses the first key or value, nothing is cut out |
| TorrentInfo.ExtractsInfo | src/bt.cpp:169-198 | From the encoding of any torrent dictionary exactly the encoding of its "info" value is cut out, and nothing if there is none |
| BtMetadata.Bep9Examples | src/bt.cpp:1788-1808 | Data and reject messages are written in the bytes of the examples of BEP-9 |
| BtMetadata.SplitsWhereJoined | src/bt.cpp:1871-1895 | The receiver separates message and data exactly where the sender joined them |
| BtMetadata.HandleBody | src/bt.cpp:1871-1911 | A received body, whatever it holds, is stored, ignored or refused, or never let go of, as specified |
| BtMetadata.ServedPieceIsStored | src/bt.cpp:1773-1809 | A piece served by a peer with the same info dictionary is stored, and everything held stays right |
| BtMetadata.ServedReads | src/bt.cpp:1773-1809 | To someone waiting for a piece, the answer to a request for it reads as its bytes, the answer for another piece is passed over, and a rejection fails the peer |
| BtMetadata.ReadsExactly | src/bt.cpp:1871-1896 | Whatever dictionary or other value is sent, with whatever behind it: data, a rejection or nothing of interest, by the 32-bit values under "msg_type" and "piece" |
| BtMetadata.BodyExactly | src/bt.cpp:1852-1870 | A message carries a body if and only if its number is 20 and its first byte 1 |
| BtMetadata.HarmlessExactly | src/bt.cpp:1871-1911 | A body keeps every buffer of right pieces right, whatever piece is waited for, if and only if read as data of a piece's length for that piece it carries the dictionary's bytes of it |
| BtMetadata.ServedIsHarmless | src/bt.cpp:1773-1911 | Whatever a peer with the right dictionary serves is harmless in that sense |
| BtMetadata.CompleteIsInfo | src/bt.cpp:1829-1843 | With all pieces held the buffer is the info dictionary byte for byte |
| BtMetadata.FetchKeepsMatch | src/bt.cpp:1839-1918 | Over any messages without wrong bytes for a piece, among others that are refused or ignored, every piece held stays right, and a complete buffer is the info dictionary |
| BtMetadata.HonestPeerDelivers | src/bt.cpp:1839-1918 | Such a peer completes the buffer with the dictionary, whatever was held before and whatever follows |
| BtMetadata.MetadataDownload.TryCommit | src/bt.cpp:1735-1771 | Commits if and only if every piece is held, the digest is the magnet's hash and the dictionary is accepted; a full buffer that fails the test is dropped; nothing is ever committed with another hash |
| BtMetadata.MetadataDownload.AwaitPiece | src/bt.cpp:1852-1917 | At most sixteen messages of any kind are read for a piece |
| BtMetadata.MetadataDownload.FetchFromPeer | src/bt.cpp:1811-1919 | For any messages from the peer: what is kept, dropped or committed, with the committed dictionary always the one hashed |
| BtMetadata.CommittedIsGood | src/bt.cpp:1735-1919 | However many peers' steps on the shared buffer interleave, and whatever they send, what is committed has the magnet's hash and was accepted |
| BtMetadata.HonestPeersStayOnTrack | src/bt.cpp:1735-1919 | If the peers announce the right size and send no wrong bytes for a piece, then however they interleave every piece held is right at every moment and only the info dictionary is committed |
| BtMetadata.FetchIsDeliveries | src/bt.cpp:1839-1918 | What fetching from one peer does to the buffer is a row of such steps |
| BtMetadata.FetchIsARow | src/bt.cpp:1735-1919 | A whole fetch from one peer, its outcome included, is a row of the steps that may interleave: it joins, delivers, and commits |
| BtMetadata.FetchAll | src/bt.cpp:1811-1919 | A download from a peer that holds the right info dictionary, answers each request and sends fewer than sixteen other messages before each answer, commits exactly that dictionary |
| PieceStorage.ReadsFlat | src/bt.cpp:1066-1086 | Reading span by span reads the flat array |
| PieceStorage.FlatPatched | src/bt.cpp:1049-1064 | Writing into one file writes the flat array at the matching place and nowhere else |
| PieceStorage.PiecesCoverAll | src/bt.cpp:941-949 | The piece lengths add up to the total size |
| PieceStorage.PieceInside | src/bt.cpp:941-949 | Every piece is non-empty, inside the array and ends no later than the next begins |
| PieceStorage.NoSuchPiece | src/bt.cpp:941-949 | A piece number out of range has no length |
| PieceStorage.NothingLeftExactly | src/bt.cpp:970-973 | No bytes are left iff every piece is held |
| PieceStorage.LeftIsCount | src/bt.cpp:970-973 | The total less the lengths of the held pieces is the number of bytes outside them |
| PieceStorage.OtherPieceKept | src/bt.cpp:1088-1109 | Writing a piece leaves the bytes of all others alone |
| PieceStorage.Storage.constructor | src/bt.cpp:869-923 | Opening holds exactly the pieces whose bytes match their hash |
| PieceStorage.Storage.BytesLeft | src/bt.cpp:970-973 | The number of bytes that lie in no held piece; zero iff all pieces are held |
| PieceStorage.Storage.MapPiece | src/bt.cpp:980-1007 | For all 32-bit offsets and lengths, succeeds if and only if the end taken in 32 bits does not pass the piece and the files reach that far, with spans that tile the range across files, empty files included |
| PieceStorage.AcceptsExactly | src/bt.cpp:980-989 | A request whose end fits 32 bits is accepted if and only if it lies inside its piece; one whose end does not never lies inside it |
| PieceStorage.WrappedEndIsAccepted | src/bt.cpp:2155-2160 | In every torrent of 2 GiB or more, one byte asked for at 2^31-1 of the first piece is accepted and lies outside it |
| PieceStorage.StaysInPieceExactly | src/bt.cpp:980-1007 | Every accepted request lies inside its piece if and only if the torrent is below 2 GiB |
| PieceStorage.Storage.ReadBlock | src/bt.cpp:1066-1086 | Returns the requested bytes of the flat array, for every accepted request |
| PieceStorage.Storage.WriteBlock | src/bt.cpp:1049-1064 | Replaces exactly the requested range of the flat array |
| PieceStorage.Storage.CommitPiece | src/bt.cpp:1088-1109 | Stores iff index, length and hash are right; counts the piece once; every held piece keeps matching its hash |
| PieceStorage.Storage.CheckAll | src/bt.cpp:1111-1128 | Holds exactly the matching pieces and counts their bytes |
| DigestTransforms.Sha1Transform | src/md_fallback.cpp:116-161 | The in-place loops compute the compression function of FIPS 180-4 |
| DigestTransforms.Sha256Transform | src/md_fallback.cpp:163-220 | Likewise for SHA-224 and SHA-256 |
| DigestTransforms.Md5Transform | src/md_fallback.cpp:61-114 | Likewise for RFC 1321 |
| DigestTransforms.TransformBlock | src/md_fallback.cpp:244-253 | One block is compressed as the digest's kind requires, in place |
| DigestTransforms.ChWithOr | src/md_fallback.cpp:136-136 | Writing the choice function with or instead of exclusive or changes nothing |
| DigestTransforms.MajWithOr | src/md_fallback.cpp:142-142 | Nor does it for the majority function |
| Digest.ChainAppend | src/md_fallback.cpp:325-365 | Chaining a message in two parts at a block boundary is chaining it whole |
| Digest.LastBlocks | src/md_fallback.cpp:385-395 | The padded tail takes one block up to 55 bytes and two beyond |
| Digest.Finish | src/md_fallback.cpp:379-405 | The padding loops chain exactly the tail and the padding of the whole message |
| Digest.MessageDigest.constructor | src/md_fallback.cpp:275-323 | A new digest has absorbed nothing; an unknown algorithm is an error from the start |
| Digest.MessageDigest.AddData | src/md_fallback.cpp:325-365 | Extends the message by the data, however it falls across blocks; ignored after an error or a result; a null buffer is an error |
| Digest.MessageDigest.Result | src/md_fallback.cpp:367-413 | The digest of the whole message as the standards define it, the same every time; nothing after an error |
| Digest.DigestPieces | src/md_fallback.cpp:325-413 | Any way of cutting a message into pieces gives the digest of the message |
| Digest.Sha224IsCut | src/md_fallback.cpp:275-413 | SHA-224 is SHA-256 from its own start, cut to 28 bytes |
| DigestConstants.Sha256Constants | src/md_fallback.cpp:165-174 | The 64 constants are the first 32 bits of the fractions of the cube roots of the first 64 primes |
| DigestConstants.Sha256Start | src/md_fallback.cpp:301-322 | Chaining starts at the first 32 bits of the fractions of the square roots of the first eight primes, for SHA-224 at the second 32 of the next eight |
| DigestConstants.Sha1Constants | src/md_fallback.cpp:134-147 | The four constants are the square roots of 2, 3, 5 and 10 with thirty bits behind the point |
| DigestConstants.AreAllPrimes | src/md_fallback.cpp:165-174 | The primes counted on are all the primes up to the last |
| DigestConstants.ArePrimes | src/md_fallback.cpp:165-174 | Each of them is prime |
| DigestConstants.InOrder | src/md_fallback.cpp:165-174 | They are counted in increasing order |
| DigestVectors.Sha256OfAbc | src/md_fallback.cpp:163-413 | The digest of "abc" is the one in the examples of FIPS 180-4 |
| DigestVectors.Sha1OfAbc | src/md_fallback.cpp:116-413 | Likewise for SHA-1 |
| DigestVectors.Md5OfAbc | src/md_fallback.cpp:61-413 | The digest of "abc" is the one in appendix A.5 of RFC 1321 |

## Left out

- Sockets, TLS, file descriptors, coroutine switching, timeouts and keepalive clocks: the network is a sequence of frames or an arbitrary function, file and socket writes succeed unless a model says otherwise.
- http2.cpp request and response plumbing (`exchange`, the body reader, waiting on events): it calls the operations modelled here and changes no window or stream itself; waiting shows up as actions that are not possible yet.
- http2.cpp stream identifiers are not wrapped at 2^32, because a session would need two thousand million streams.
- http2.cpp a stream that has ended keeps no send window: a send on it is checked against the connection window only, which allows more runs than the source.
- Http2Send.SendBody: takes the windows seen by its checks as a list; `Http2Upload.Upload` reads them off the states of one run.
- data_channel.cpp keepalive: a clock decides it.
- data_channel.cpp an exchange of a channel already in error, which would keep its plug, and CHANNEL_MADE requests, which only answer; packets reach a channel's own handlers only while it works and is not plugged.
- ChannelRelay.GateFollowsRequest: queue sizes are not wrapped at 2^32, because a put waits until the queue is below its capacity; all channels are working ones (an aborted channel opens its gate), and what a plugged channel passes on fits the other's packet size.
- ChannelRelay.ShutMeansPaused: channels are joined along a line, each to at most one other; a channel joined anew to a third one is left out.
- ChannelAbort.Channel.Abort: the socket channel's sending queue is in `ChannelSender` instead, and those who wait on a channel appear only as released or counted; an entry erased under the walk, which needs two working channels of one parent and number, is passed, though C++ leaves that undefined; aborts do not switch coroutines.
- ChannelAbort.Channel.MakeChannel: whether the channels above and the connection work is an argument.
- kademlia.cpp `heardFrom` (table upkeep during a lookup): pinging an eviction candidate may hear from another node and recurse for as long as the network wants; the lookup's result does not depend on it.
- kademlia.cpp `setSelfId`: it is never called, and would break the placement of the nodes already stored.
- kademlia.cpp tokens, announced peers, stores and message handling: what they promise depends on a secret, a clock and the random choice of peers, none of which the model has.
- KademliaTable.SortKeeps: `std::sort` is modelled by insertion; for distinct identifiers the result is the same.
- bencode.cpp devices other than a byte string, and the conversions to and from other types.
- BencodeReader.BencodeReader.ReadValue: inputs below 2^31 bytes, since the source casts read lengths to 32 bits; the nesting depth is not bounded, as in the source.
- BencodeCanonical.CanonicalExactly: inputs below 2^31 bytes, as for the reader.
- BencodeScan.SkipBencodeValue: the overflow of the signed length, which C++ leaves undefined, is taken to wrap; the recursion depth is not bounded.
- BtMetadata.MetadataDownload.FetchFromPeer: one peer at a time; for several at once only the steps on the shared buffer are modelled, in `BtMetadata.HonestPeersStayOnTrack`. The digest and the acceptance of a dictionary are any functions; removal of the torrent and failed sends, which only end the loop, are left out.
- bt.cpp peers, picker, trackers and torrent parsing: piece availability counts have no clean invariant, the rest is plumbing.
- PieceStorage.Storage.WriteBlock: data below 2^31 bytes, since the source casts its length.
- PieceStorage.Storage.CommitPiece: data below 2^31 bytes as well; the hash is any function; file lengths are non-negative and paths distinct.
- md_fallback.cpp `hmac` and `PBKDF2_HMAC`: empty in the source.
- http3.cpp, ciphers, certificates, compression, LMDB and the HTTP/1 client and server: thin layers or simpler variants.
