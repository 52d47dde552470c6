/** The BEP-9 metadata exchange: info dictionaries served and collected in 16 KiB pieces. */
module BtMetadata {
  import opened Bytes
  import opened Bencode
  import opened BencodeRoundTrip
  import opened BencodeSkip
  import opened BencodeScan
  import opened TorrentInfo
  import BencodeReader

  const PIECE_SIZE: int := 16 * 1024
  const DECODE_LIMIT: int := 16 * 1024 * 1024

  const MSG_TYPE: Text := [109, 115, 103, 95, 116, 121, 112, 101]
  const PIECE: Text := [112, 105, 101, 99, 101]
  const TOTAL_SIZE: Text := [116, 111, 116, 97, 108, 95, 115, 105, 122, 101]

  function PieceCount(size: nat): nat { (size + PIECE_SIZE - 1) / PIECE_SIZE }

  function PieceLength(size: nat, piece: nat): nat
    requires piece < PieceCount(size)
  {
    Min(PIECE_SIZE, size - piece * PIECE_SIZE)
  }

  // ---------------------------------------------------------------- serving

  function DataMessage(size: nat, piece: nat): Value
  {
    Dict([Entry(MSG_TYPE, Int(1)), Entry(PIECE, Int(piece)), Entry(TOTAL_SIZE, Int(size))])
  }

  function RejectMessage(piece: int): Value
  {
    Dict([Entry(MSG_TYPE, Int(2)), Entry(PIECE, Int(piece))])
  }

  /** The body sent for a request: the piece behind its description, or a rejection. */
  function Serve(info: Text, piece: nat): Text
  {
    if info == [] || piece >= PieceCount(|info|) then Encode(RejectMessage(piece))
    else
      var off := piece * PIECE_SIZE;
      Encode(DataMessage(|info|, piece)) + info[off..off + PieceLength(|info|, piece)]
  }

  lemma KeyNames()
    ensures WriteText(MSG_TYPE) == Ascii("8:msg_type") && WriteText(PIECE) == Ascii("5:piece")
    ensures WriteText(TOTAL_SIZE) == Ascii("10:total_size")
  {
    hide WriteText, Digits;
    assert MSG_TYPE == Ascii("msg_type") && PIECE == Ascii("piece");
    ShortText("msg_type");
    ShortText("piece");
    TotalSizeName();
  }

  lemma TotalSizeName()
    ensures WriteText(TOTAL_SIZE) == Ascii("10:total_size")
  {
    assert TOTAL_SIZE == Ascii("total_size") && [49, 48] + [COLON] == Ascii("10:");
    NextDigit(1);
    NextDigit(10);
    hide Digits, Ascii;
    Joined("10:", "total_size");
    assert "10:" + "total_size" == "10:total_size";
  }

  /** The data and reject messages of BEP-9, in the bytes of its examples. */
  lemma Bep9Examples()
    ensures Encode(RejectMessage(0)) == Ascii("d8:msg_typei2e5:piecei0ee")
    ensures Encode(DataMessage(34256, 0)) == Ascii("d8:msg_typei1e5:piecei0e10:total_sizei34256ee")
  {
    RejectExample();
    DataExample();
  }

  lemma NumberExamples()
    ensures Encode(Int(0)) == Ascii("i0e") && Encode(Int(1)) == Ascii("i1e") && Encode(Int(2)) == Ascii("i2e")
    ensures Encode(Int(34256)) == Ascii("i34256e")
  {
    hide Digits;
    assert Digits(0) == [48] && Digits(1) == [49] && Digits(2) == [50] by { NextDigit(0); NextDigit(1); NextDigit(2); }
    assert Digits(34256) == [51, 52, 50, 53, 54] by {
      NextDigit(3);
      NextDigit(34);
      NextDigit(342);
      NextDigit(3425);
      NextDigit(34256);
    }
  }

  lemma NextDigit(n: nat)
    ensures Digits(n) == (if n < 10 then [] else Digits(n / 10)) + [CHAR_0 + n % 10]
  {
  }

  lemma RejectExample()
    ensures Encode(RejectMessage(0)) == Ascii("d8:msg_typei2e5:piecei0ee")
  {
    hide WriteText, MSG_TYPE, PIECE, Decimal, Ascii;
    KeyNames();
    NumberExamples();
    var kind, piece := Entry(MSG_TYPE, Int(2)), Entry(PIECE, Int(0));
    assert WriteEntries([]) == Written([], true) && [kind, piece] + [] == [kind, piece];
    hide Write, WriteEntries;
    EncodedPair(kind, piece, []);
    RejectBytes();
  }

  lemma RejectBytes()
    ensures [CHAR_d] + Ascii("8:msg_type") + Ascii("i2e") + Ascii("5:piece") + Ascii("i0e") + [] + [CHAR_e]
         == Ascii("d8:msg_typei2e5:piecei0ee")
  {
    assert [CHAR_d] + Ascii("8:msg_type") == Ascii("d8:msg_type") && [CHAR_e] == Ascii("e");
    hide Ascii;
    Joined("d8:msg_type", "i2e");
    assert "d8:msg_type" + "i2e" == "d8:msg_typei2e";
    Joined("d8:msg_typei2e", "5:piece");
    assert "d8:msg_typei2e" + "5:piece" == "d8:msg_typei2e5:piece";
    Joined("d8:msg_typei2e5:piece", "i0e");
    assert "d8:msg_typei2e5:piece" + "i0e" == "d8:msg_typei2e5:piecei0e";
    Joined("d8:msg_typei2e5:piecei0e", "e");
  }

  lemma DataExample()
    ensures Encode(DataMessage(34256, 0)) == Ascii("d8:msg_typei1e5:piecei0e10:total_sizei34256ee")
  {
    hide WriteText, MSG_TYPE, PIECE, TOTAL_SIZE, Write, WriteEntries, Ascii;
    KeyNames();
    NumberExamples();
    var size := Entry(TOTAL_SIZE, Int(34256));
    EncodedLast(size);
    EncodedPair(Entry(MSG_TYPE, Int(1)), Entry(PIECE, Int(0)), [size]);
    assert [Entry(MSG_TYPE, Int(1)), Entry(PIECE, Int(0))] + [size] == DataMessage(34256, 0).entries;
    DataBytes();
  }

  lemma DataBytes()
    ensures [CHAR_d] + Ascii("8:msg_type") + Ascii("i1e") + Ascii("5:piece") + Ascii("i0e")
            + (Ascii("10:total_size") + Ascii("i34256e")) + [CHAR_e]
         == Ascii("d8:msg_typei1e5:piecei0e10:total_sizei34256ee")
  {
    assert [CHAR_d] + Ascii("8:msg_type") == Ascii("d8:msg_type") && [CHAR_e] == Ascii("e");
    hide Ascii;
    Joined("d8:msg_type", "i1e");
    assert "d8:msg_type" + "i1e" == "d8:msg_typei1e";
    Joined("d8:msg_typei1e", "5:piece");
    assert "d8:msg_typei1e" + "5:piece" == "d8:msg_typei1e5:piece";
    Joined("d8:msg_typei1e5:piece", "i0e");
    assert "d8:msg_typei1e5:piece" + "i0e" == "d8:msg_typei1e5:piecei0e";
    Joined("10:total_size", "i34256e");
    assert "10:total_size" + "i34256e" == "10:total_sizei34256e";
    Joined("d8:msg_typei1e5:piecei0e", "10:total_sizei34256e");
    assert "d8:msg_typei1e5:piecei0e" + "10:total_sizei34256e" == "d8:msg_typei1e5:piecei0e10:total_sizei34256e";
    Joined("d8:msg_typei1e5:piecei0e10:total_sizei34256e", "e");
  }

  lemma Joined(a: string, b: string)
    ensures Ascii(a) + Ascii(b) == Ascii(a + b)
  {
  }

  // ---------------------------------------------------------------- collecting

  /** What a body says to someone waiting for one piece. */
  datatype Reading = Endless | Bad | Other | Data(bytes: Text)

  datatype Outcome = Hung | Failed | Ignored | Stored

  datatype Collected = Collected(buf: Text, have: seq<bool>)

  predicate IsInt(v: Option<Value>) { v.Some? && v.value.Int? }

  function Read(body: Text, piece: nat, fuel: nat): Reading
  {
    var end := ScanValue(body, 0, fuel);
    if end == Unfinished then Endless
    else if end == Refused then Bad
    else ReadDict(Decode(body[..end.pos], DECODE_LIMIT), body[end.pos..], piece)
  }

  function ReadDict(dict: Value, rest: Text, piece: nat): Reading
  {
    if !dict.Dict? then Bad
    else
      var kind, got := Lookup(dict.entries, MSG_TYPE), Lookup(dict.entries, PIECE);
      if !IsInt(kind) || !IsInt(got) then Other
      else if ToInt32(kind.value.number) == 2 then Bad
      else if ToInt32(kind.value.number) != 1 || ToInt32(got.value.number) != piece then Other
      else Data(rest)
  }

  /** What a body received while waiting for `piece` does to the buffer. */
  function Collect(c: Collected, body: Text, piece: nat, fuel: nat): (Outcome, Collected)
  {
    match Read(body, piece, fuel)
    case Endless => (Hung, c)
    case Bad => (Failed, c)
    case Other => (Ignored, c)
    case Data(bytes) => Store(c, piece, bytes)
  }

  function Store(c: Collected, piece: nat, data: Text): (Outcome, Collected)
  {
    var off := piece * PIECE_SIZE;
    if piece >= |c.have| || off > |c.buf| then (Failed, c)
    else
      var want := if off + PIECE_SIZE > |c.buf| then |c.buf| - off else PIECE_SIZE;
      if |data| != want then (Failed, c)
      else (Stored, Collected(c.buf[..off] + data + c.buf[off + want..], c.have[piece := true]))
  }

  method HandleBody(c: Collected, body: Text, piece: nat, fuel: nat) returns (outcome: Outcome, next: Collected)
    requires |body| < TWO_31
    ensures (outcome, next) == Collect(c, body, piece, fuel)
  {
    hide ScanValue, Decode, Lookup, ToInt32;
    var end := SkipBencodeValue(body, 0, fuel);
    if end == Unfinished {
      return Hung, c;
    }
    if end == Refused {
      return Failed, c;
    }
    var dict := BencodeReader.DecodeAll(body[..end.pos], DECODE_LIMIT);
    if !dict.Dict? {
      return Failed, c;
    }
    var kind, got := Lookup(dict.entries, MSG_TYPE), Lookup(dict.entries, PIECE);
    if !IsInt(kind) || !IsInt(got) {
      return Ignored, c;
    }
    if ToInt32(kind.value.number) == 2 {
      return Failed, c;
    }
    if ToInt32(kind.value.number) != 1 || ToInt32(got.value.number) != piece {
      return Ignored, c;
    }
    var stored := Store(c, piece, body[end.pos..]);
    return stored.0, stored.1;
  }

  // ---------------------------------------------------------------- the exchange

  /** Every piece marked as held is the right one. */
  ghost predicate Matches(info: Text, c: Collected)
  {
    && |c.buf| == |info| && |c.have| == PieceCount(|info|)
    && forall k :: 0 <= k < |info| && c.have[k / PIECE_SIZE] ==> c.buf[k] == info[k]
  }

  lemma OrderedKeys()
    ensures Less(MSG_TYPE, PIECE) && Less(PIECE, TOTAL_SIZE) && Less(MSG_TYPE, TOTAL_SIZE)
    ensures MSG_TYPE != PIECE && MSG_TYPE != TOTAL_SIZE && PIECE != TOTAL_SIZE
  {
    assert MSG_TYPE[0] == 109 && PIECE[0] == 112 && TOTAL_SIZE[0] == 116;
  }

  lemma DataMessageIsProper(size: nat, piece: nat)
    requires size < TWO_31 && piece < TWO_31
    ensures Proper(DataMessage(size, piece)) && Weight(DataMessage(size, piece)) <= DECODE_LIMIT
    ensures Lookup(DataMessage(size, piece).entries, MSG_TYPE) == Some(Int(1))
    ensures Lookup(DataMessage(size, piece).entries, PIECE) == Some(Int(piece))
  {
    hide Less;
    OrderedKeys();
    var a, b, d := Entry(MSG_TYPE, Int(1)), Entry(PIECE, Int(piece)), Entry(TOTAL_SIZE, Int(size));
    var entries := [a, b, d];
    assert Sorted(entries);
    assert entries[1..] == [b, d] && [b, d][1..] == [d] && [d][1..] == [];
    assert EntriesWeight([d]) == |TOTAL_SIZE| + 1 + EntriesWeight([]);
    assert EntriesWeight([b, d]) == |PIECE| + 1 + EntriesWeight([d]);
    assert EntriesWeight(entries) == |MSG_TYPE| + 1 + EntriesWeight([b, d]);
  }

  lemma EntryLength(key: Text, n: nat)
    requires n < TWO_31 && |key| <= 10
    ensures Write(Int(n)).ok && |WriteText(key)| <= 13 && |Encode(Int(n))| <= 12
  {
    hide Digits;
    Pow10Values();
    assert Pow10(2) == 100;
    FewDigits(n, 10);
    FewDigits(|key|, 2);
  }

  lemma DataMessageIsShort(size: nat, piece: nat)
    requires size < TWO_31 && piece < TWO_31
    ensures |Encode(DataMessage(size, piece))| <= 100
  {
    hide WriteText;
    var a, b, d := Entry(MSG_TYPE, Int(1)), Entry(PIECE, Int(piece)), Entry(TOTAL_SIZE, Int(size));
    var entries := [a, b, d];
    EntryLength(MSG_TYPE, 1);
    EntryLength(PIECE, piece);
    EntryLength(TOTAL_SIZE, size);
    hide Write;
    assert entries[1..] == [b, d] && [b, d][1..] == [d] && [d][1..] == [];
    assert WriteEntries([d]).ok && |WriteEntries([d]).bytes| <= 25;
    assert WriteEntries([b, d]).ok && |WriteEntries([b, d]).bytes| <= 50;
    assert WriteEntries(entries).ok && |WriteEntries(entries).bytes| <= 75;
    assert Dict(entries) == DataMessage(size, piece);
    DictLength(entries);
  }

  lemma DictLength(entries: seq<Entry>)
    requires WriteEntries(entries).ok
    ensures |Encode(Dict(entries))| == |WriteEntries(entries).bytes| + 2
  {
    hide WriteEntries;
  }

  /** The receiver cuts a message exactly where the sender joined it to the data. */
  lemma SplitsWhereJoined(msg: Value, data: Text, fuel: nat)
    requires Proper(msg) && |Encode(msg) + data| < TWO_31 && fuel > 2 * |Encode(msg) + data|
    ensures var body := Encode(msg) + data;
      ScanValue(body, 0, fuel) == End(|Encode(msg)|) && body[..|Encode(msg)|] == Encode(msg) && body[|Encode(msg)|..] == data
  {
    hide SkipValue, ScanValue, Encode, Proper;
    var body := Encode(msg) + data;
    assert body[0..0 + |Encode(msg)|] == Encode(msg);
    SkipEncoded(msg, body, 0);
    ScanMeetsSkip(body, 0, fuel);
  }

  lemma InPiece(k: nat, piece: nat)
    ensures k / PIECE_SIZE == piece <==> piece * PIECE_SIZE <= k < piece * PIECE_SIZE + PIECE_SIZE
  {
  }

  lemma StoreKeepsMatch(info: Text, c: Collected, piece: nat)
    requires Matches(info, c) && piece < PieceCount(|info|)
    ensures var off := piece * PIECE_SIZE;
      off <= |info| &&
      var r := Store(c, piece, info[off..off + PieceLength(|info|, piece)]);
      r.0 == Stored && Matches(info, r.1) && r.1.have == c.have[piece := true]
  {
    var off, n := piece * PIECE_SIZE, PieceLength(|info|, piece);
    var r := Store(c, piece, info[off..off + n]);
    assert r == (Stored, Collected(c.buf[..off] + info[off..off + n] + c.buf[off + n..], c.have[piece := true]));
    hide Store;
    forall k | 0 <= k < |info| && r.1.have[k / PIECE_SIZE] ensures r.1.buf[k] == info[k] {
      InPiece(k, piece);
      if off <= k < off + n {
        assert r.1.buf[k] == info[off..off + n][k - off];
      } else {
        assert k / PIECE_SIZE != piece && c.have[k / PIECE_SIZE] && r.1.buf[k] == c.buf[k];
      }
    }
  }

  /** A bound on the fuel that any served body needs. */
  const SERVED_FUEL: int := 2 * (PIECE_SIZE + 100) + 1

  lemma RejectIsProper(piece: nat)
    requires piece < TWO_31
    ensures Proper(RejectMessage(piece)) && Weight(RejectMessage(piece)) <= DECODE_LIMIT
    ensures Lookup(RejectMessage(piece).entries, MSG_TYPE) == Some(Int(2))
    ensures Lookup(RejectMessage(piece).entries, PIECE) == Some(Int(piece))
    ensures |Encode(RejectMessage(piece))| <= 100
  {
    hide Less, WriteText;
    OrderedKeys();
    var a, b := Entry(MSG_TYPE, Int(2)), Entry(PIECE, Int(piece));
    var entries := [a, b];
    assert Sorted(entries);
    assert entries[1..] == [b] && [b][1..] == [];
    assert EntriesWeight([b]) == |PIECE| + 1 + EntriesWeight([]);
    assert EntriesWeight(entries) == |MSG_TYPE| + 1 + EntriesWeight([b]);
    EntryLength(MSG_TYPE, 2);
    EntryLength(PIECE, piece);
    hide Write;
    assert WriteEntries([b]).ok && |WriteEntries([b]).bytes| <= 25;
    assert WriteEntries(entries).ok && |WriteEntries(entries).bytes| <= 50;
    DictLength(entries);
  }

  /** A message and the data behind it read as sent. */
  lemma MessageReads(msg: Value, data: Text, piece: nat, fuel: nat)
    requires Proper(msg) && Weight(msg) <= DECODE_LIMIT && |Encode(msg)| < TWO_31
    requires |Encode(msg) + data| < TWO_31 && fuel > 2 * |Encode(msg) + data|
    ensures Read(Encode(msg) + data, piece, fuel) == ReadDict(msg, data, piece)
  {
    hide ScanValue, Encode, Proper, Weight, Decode, ReadDict;
    SplitsWhereJoined(msg, data, fuel);
    RoundTrip(msg, DECODE_LIMIT);
  }

  lemma DataReads(size: nat, served: nat, data: Text, piece: nat)
    requires size < TWO_31 && served < TWO_31
    ensures ReadDict(DataMessage(size, served), data, piece) == if served == piece then Data(data) else Other
  {
    hide Lookup, ToInt32;
    DataMessageIsProper(size, served);
    Int32Kept(1);
    Int32Kept(served);
  }

  lemma RejectReads(served: nat, piece: nat)
    requires served < TWO_31
    ensures ReadDict(RejectMessage(served), [], piece) == Bad
  {
    hide Lookup, ToInt32;
    RejectIsProper(served);
    Int32Kept(2);
  }

  /** How a served body reads to someone waiting for a piece: the right data, someone else's, or a rejection. */
  lemma ServedReads(info: Text, served: nat, piece: nat, fuel: nat)
    requires |info| < TWO_31 && served < TWO_31 && fuel >= SERVED_FUEL
    ensures |Serve(info, served)| <= PIECE_SIZE + 100
    ensures Read(Serve(info, served), piece, fuel) ==
      if info == [] || served >= PieceCount(|info|) then Bad
      else if served != piece then Other
      else var off := piece * PIECE_SIZE; Data(info[off..off + PieceLength(|info|, piece)])
  {
    hide Read, ReadDict, Encode, Proper, Weight, DataMessage, RejectMessage;
    if info == [] || served >= PieceCount(|info|) {
      var msg := RejectMessage(served);
      RejectIsProper(served);
      assert Encode(msg) + [] == Encode(msg);
      MessageReads(msg, [], piece, fuel);
      RejectReads(served, piece);
    } else {
      var msg, off := DataMessage(|info|, served), served * PIECE_SIZE;
      var data := info[off..off + PieceLength(|info|, served)];
      DataMessageIsProper(|info|, served);
      DataMessageIsShort(|info|, served);
      MessageReads(msg, data, piece, fuel);
      DataReads(|info|, served, data, piece);
    }
  }

  /** What two numbers, cut to 32 bits, say to someone waiting for a piece. */
  function Says(kind: int, got: int, data: Text, piece: nat): Reading
  {
    match ToInt32(kind)
    case 1 => if ToInt32(got) == piece then Data(data) else Other
    case 2 => Bad
    case _ => Other
  }

  /** Any message at all: what stands under "msg_type" and "piece" decides, if both are numbers. */
  lemma ReadsExactly(msg: Value, data: Text, piece: nat, fuel: nat)
    requires Proper(msg) && Weight(msg) <= DECODE_LIMIT && |Encode(msg) + data| < TWO_31 && fuel > 2 * |Encode(msg) + data|
    ensures Read(Encode(msg) + data, piece, fuel) ==
      if !msg.Dict? then Bad
      else
        match (Lookup(msg.entries, Ascii("msg_type")), Lookup(msg.entries, Ascii("piece")))
        case (Some(Int(kind)), Some(Int(got))) => Says(kind, got, data, piece)
        case _ => Other
  {
    hide Read, Encode, Proper, Weight, Lookup, ToInt32;
    assert MSG_TYPE == Ascii("msg_type") && PIECE == Ascii("piece");
    MessageReads(msg, data, piece, fuel);
  }

  /** A message carries a body exactly if it is an extended one under the number given to metadata. */
  lemma BodyExactly(m: Message, body: Text)
    ensures BodyOf(m) == Some(body) <==> m == Message(20, [1] + body)
  {
    assert ([1] + body)[1..] == body;
    if BodyOf(m) == Some(body) { assert m.payload == [m.payload[0]] + m.payload[1..]; }
  }

  /** A piece served by a peer holding `info` is stored, and everything held stays right. */
  lemma ServedPieceIsStored(info: Text, c: Collected, piece: nat, fuel: nat)
    requires Matches(info, c) && piece < PieceCount(|info|) && |info| < TWO_31 && fuel >= SERVED_FUEL
    ensures var r := Collect(c, Serve(info, piece), piece, fuel);
      r.0 == Stored && Matches(info, r.1) && r.1.have == c.have[piece := true]
  {
    hide Read, Matches, Store, Serve;
    ServedReads(info, piece, piece, fuel);
    StoreKeepsMatch(info, c, piece);
  }

  /** Once every piece is held the buffer is the info dictionary, byte for byte. */
  lemma CompleteIsInfo(info: Text, c: Collected)
    requires Matches(info, c) && NextPiece(c.have) == None
    ensures c.buf == info
  {
    forall k | 0 <= k < |info| ensures c.buf[k] == info[k] {
      assert 0 <= k / PIECE_SIZE < |c.have|;
    }
  }

  // ---------------------------------------------------------------- fetching from one peer

  const EXT_MESSAGE_ID: int := 20
  const LOCAL_UT_METADATA_ID: int := 1
  const MAX_ATTEMPTS: nat := 16
  const MAX_MESSAGE: int := 16 * 1024 * 1024

  /** A message as read from the peer; a keep-alive has the number 255. */
  datatype Message = Message(id: byte, payload: Text)

  /** The body of a metadata message. */
  function BodyOf(m: Message): (r: Option<Text>)
    ensures r.Some? ==> |r.value| < |m.payload|
  {
    if m.id != EXT_MESSAGE_ID || m.payload == [] || m.payload[0] != LOCAL_UT_METADATA_ID then None
    else Some(m.payload[1..])
  }

  /** The first piece not held. */
  function NextPiece(have: seq<bool>): (r: Option<nat>)
    ensures r.Some? ==> r.value < |have| && !have[r.value] && forall i :: 0 <= i < r.value ==> have[i]
    ensures r.None? <==> forall i :: 0 <= i < |have| ==> have[i]
  {
    FirstMissing(have, 0)
  }

  function FirstMissing(have: seq<bool>, from: nat): (r: Option<nat>)
    requires from <= |have|
    ensures r.Some? ==> from <= r.value < |have| && !have[r.value] && forall i :: from <= i < r.value ==> have[i]
    ensures r.None? <==> forall i :: from <= i < |have| ==> have[i]
    decreases |have| - from
  {
    if from == |have| then None else if !have[from] then Some(from) else FirstMissing(have, from + 1)
  }

  /** Up to `n` messages are read for one piece. */
  function Await(c: Collected, replies: seq<Message>, piece: nat, n: nat, fuel: nat): (r: (Outcome, Collected, seq<Message>))
    ensures r.0 == Stored ==> |r.2| < |replies|
    ensures r.0 != Ignored && (r.0 != Stored ==> r.1 == c)
    decreases n
  {
    if n == 0 || replies == [] then (Failed, c, replies)
    else
      var body := BodyOf(replies[0]);
      if body.None? then Await(c, replies[1..], piece, n - 1, fuel)
      else
        var r := Collect(c, body.value, piece, fuel);
        if r.0 == Ignored then Await(c, replies[1..], piece, n - 1, fuel) else (r.0, r.1, replies[1..])
  }

  lemma AwaitOver(c: Collected, replies: seq<Message>, piece: nat, n: nat, fuel: nat)
    requires n == 0 || replies == []
    ensures Await(c, replies, piece, n, fuel) == (Failed, c, replies)
  {
  }

  lemma AwaitStep(c: Collected, replies: seq<Message>, piece: nat, n: nat, fuel: nat)
    requires n > 0 && replies != []
    ensures var body := BodyOf(replies[0]);
      && (body.None? ==> Await(c, replies, piece, n, fuel) == Await(c, replies[1..], piece, n - 1, fuel))
      && (body.Some? ==>
            var r := Collect(c, body.value, piece, fuel);
            Await(c, replies, piece, n, fuel)
            == if r.0 == Ignored then Await(c, replies[1..], piece, n - 1, fuel) else (r.0, r.1, replies[1..]))
  {
    hide Collect, BodyOf;
  }

  /** Piece after piece, until all are held or the peer fails. */
  function Fetch(c: Collected, replies: seq<Message>, fuel: nat): (r: (Outcome, Collected))
    ensures r.0 == Stored ==> NextPiece(r.1.have) == None
    ensures |r.1.buf| == |c.buf| && |r.1.have| == |c.have|
    decreases |replies|
  {
    var piece := NextPiece(c.have);
    if piece.None? then (Stored, c)
    else
      var r := Await(c, replies, piece.value, MAX_ATTEMPTS, fuel);
      AwaitKeepsSizes(c, replies, piece.value, MAX_ATTEMPTS, fuel);
      if r.0 != Stored then (r.0, r.1) else Fetch(r.1, r.2, fuel)
  }

  lemma {:induction false} AwaitKeepsSizes(c: Collected, replies: seq<Message>, piece: nat, n: nat, fuel: nat)
    ensures var r := Await(c, replies, piece, n, fuel); |r.1.buf| == |c.buf| && |r.1.have| == |c.have|
    decreases n
  {
    hide Read;
    if n > 0 && replies != [] { AwaitKeepsSizes(c, replies[1..], piece, n - 1, fuel); }
  }

  // ---------------------------------------------------------------- honest peers

  function PieceOf(info: Text, piece: nat): (bytes: Text)
    requires piece < PieceCount(|info|)
    ensures |bytes| == PieceLength(|info|, piece)
  {
    info[piece * PIECE_SIZE..piece * PIECE_SIZE + PieceLength(|info|, piece)]
  }

  /** Read as data for a piece, the body carries that piece of `info`, or bytes that are too few or too many. */
  ghost predicate HarmlessBody(info: Text, body: Text, fuel: nat)
  {
    forall piece: nat :: piece < PieceCount(|info|) ==>
      match Read(body, piece, fuel)
      case Data(bytes) => |bytes| == PieceLength(|info|, piece) ==> bytes == PieceOf(info, piece)
      case _ => true
  }

  ghost predicate Harmless(info: Text, m: Message, fuel: nat)
  {
    BodyOf(m).Some? ==> HarmlessBody(info, BodyOf(m).value, fuel)
  }

  lemma HarmlessKeeps(info: Text, c: Collected, body: Text, piece: nat, fuel: nat)
    requires HarmlessBody(info, body, fuel) && Matches(info, c)
    ensures Matches(info, Collect(c, body, piece, fuel).1)
  {
    hide Read, Matches;
    assert |c.buf| == |info| && |c.have| == PieceCount(|info|) by { MatchesSizes(info, c); }
    var r := Read(body, piece, fuel);
    if r.Data? && piece < PieceCount(|info|) && |r.bytes| == PieceLength(|info|, piece) {
      assert r.bytes == PieceOf(info, piece);
      StoreKeepsMatch(info, c, piece);
    }
  }

  lemma MatchesSizes(info: Text, c: Collected)
    requires Matches(info, c)
    ensures |c.buf| == |info| && |c.have| == PieceCount(|info|)
  {
  }

  /** Stored in an empty buffer, data of the right length keeps the match only if it is that piece of `info`. */
  lemma StoredMeansPiece(info: Text, piece: nat, data: Text)
    requires piece < PieceCount(|info|) && |data| == PieceLength(|info|, piece)
    requires Matches(info, Store(Blank(|info|), piece, data).1)
    ensures data == PieceOf(info, piece)
  {
    var off := piece * PIECE_SIZE;
    var next := Store(Blank(|info|), piece, data).1;
    assert next.have[piece];
    forall i | 0 <= i < |data| ensures data[i] == PieceOf(info, piece)[i] {
      InPiece(off + i, piece);
      assert next.buf[off + i] == data[i];
    }
  }

  /** The bodies that keep every buffer right, whatever piece is waited for, are exactly the harmless ones. */
  lemma HarmlessExactly(info: Text, body: Text, fuel: nat)
    ensures HarmlessBody(info, body, fuel) <==>
      forall c: Collected, piece: nat {:trigger Collect(c, body, piece, fuel)} ::
        Matches(info, c) ==> Matches(info, Collect(c, body, piece, fuel).1)
  {
    hide Read, Matches, Store, Blank;
    if HarmlessBody(info, body, fuel) {
      forall c: Collected, piece: nat | Matches(info, c) ensures Matches(info, Collect(c, body, piece, fuel).1) {
        HarmlessKeeps(info, c, body, piece, fuel);
      }
    } else {
      var piece: nat :| piece < PieceCount(|info|) && Read(body, piece, fuel).Data? &&
        |Read(body, piece, fuel).bytes| == PieceLength(|info|, piece) &&
        Read(body, piece, fuel).bytes != PieceOf(info, piece);
      BlankMatches(info);
      if Matches(info, Collect(Blank(|info|), body, piece, fuel).1) {
        StoredMeansPiece(info, piece, Read(body, piece, fuel).bytes);
      }
    }
  }

  lemma ServedIsHarmless(info: Text, served: nat, m: Message, fuel: nat)
    requires |info| < TWO_31 && served < TWO_31 && fuel >= SERVED_FUEL && BodyOf(m) == Some(Serve(info, served))
    ensures Harmless(info, m, fuel)
  {
    hide Read, Serve, BodyOf;
    forall piece: nat | piece < PieceCount(|info|)
      ensures Read(Serve(info, served), piece, fuel) == Data(PieceOf(info, piece))
        || !Read(Serve(info, served), piece, fuel).Data?
    {
      ServedReads(info, served, piece, fuel);
    }
  }

  lemma {:induction false} AwaitKeepsMatch(info: Text, c: Collected, replies: seq<Message>, piece: nat, n: nat, fuel: nat)
    requires Matches(info, c) && forall i :: 0 <= i < |replies| ==> Harmless(info, replies[i], fuel)
    ensures var r := Await(c, replies, piece, n, fuel);
      Matches(info, r.1) && forall i :: 0 <= i < |r.2| ==> Harmless(info, r.2[i], fuel)
    decreases n
  {
    hide Collect, Matches, BodyOf, HarmlessBody;
    if n > 0 && replies != [] {
      assert Harmless(info, replies[0], fuel);
      if BodyOf(replies[0]).Some? { HarmlessKeeps(info, c, BodyOf(replies[0]).value, piece, fuel); }
      AwaitKeepsMatch(info, c, replies[1..], piece, n - 1, fuel);
    }
  }

  /** Harmless messages, whatever is refused or ignored among them, leave only right bytes; a full buffer is `info`. */
  lemma {:induction false} FetchKeepsMatch(info: Text, c: Collected, replies: seq<Message>, fuel: nat)
    requires Matches(info, c) && forall i :: 0 <= i < |replies| ==> Harmless(info, replies[i], fuel)
    ensures var r := Fetch(c, replies, fuel); Matches(info, r.1) && (r.0 == Stored ==> r.1.buf == info)
    decreases |replies|
  {
    hide Await, Matches, Harmless, NextPiece;
    var piece := NextPiece(c.have);
    if piece.None? {
      CompleteIsInfo(info, c);
    } else {
      var r := Await(c, replies, piece.value, MAX_ATTEMPTS, fuel);
      AwaitKeepsMatch(info, c, replies, piece.value, MAX_ATTEMPTS, fuel);
      if r.0 == Stored { FetchKeepsMatch(info, r.1, r.2, fuel); }
    }
  }

  /** A message that someone waiting for `piece` reads past. */
  predicate Ignorable(m: Message, piece: nat, fuel: nat)
  {
    BodyOf(m).None? || Read(BodyOf(m).value, piece, fuel) == Other
  }

  lemma {:induction false} AwaitPasses(c: Collected, noise: seq<Message>, rest: seq<Message>, piece: nat, n: nat, fuel: nat)
    requires |noise| <= n && forall i :: 0 <= i < |noise| ==> Ignorable(noise[i], piece, fuel)
    ensures Await(c, noise + rest, piece, n, fuel) == Await(c, rest, piece, n - |noise|, fuel)
    decreases |noise|
  {
    hide Read, Store;
    if noise == [] {
      assert noise + rest == rest;
    } else {
      assert (noise + rest)[0] == noise[0] && (noise + rest)[1..] == noise[1..] + rest;
      assert Ignorable(noise[0], piece, fuel);
      AwaitPasses(c, noise[1..], rest, piece, n - 1, fuel);
    }
  }

  function ReplyTo(info: Text, piece: nat): Message
  {
    Message(EXT_MESSAGE_ID, [LOCAL_UT_METADATA_ID] + Serve(info, piece))
  }

  /** How many pieces from `from` on are missing. */
  function Missing(have: seq<bool>, from: nat): nat
    requires from <= |have|
    decreases |have| - from
  {
    if from == |have| then 0 else (if have[from] then 0 else 1) + Missing(have, from + 1)
  }

  lemma {:induction false} OneFewer(have: seq<bool>, from: nat, piece: nat)
    requires from <= piece < |have| && !have[piece]
    ensures Missing(have, from) == Missing(have[piece := true], from) + 1
    decreases |have| - from
  {
    if from < piece { OneFewer(have, from + 1, piece); } else { SameAfter(have, piece + 1, piece); }
  }

  lemma {:induction false} SameAfter(have: seq<bool>, from: nat, piece: nat)
    requires piece < from <= |have|
    ensures Missing(have, from) == Missing(have[piece := true], from)
    decreases |have| - from
  {
    if from < |have| { SameAfter(have, from + 1, piece); }
  }

  /** A peer that answers each request in turn, after messages of its own. */
  function Answers(info: Text, have: seq<bool>, noise: nat -> seq<Message>): seq<Message>
    decreases Missing(have, 0)
  {
    var piece := NextPiece(have);
    if piece.None? then []
    else
      OneFewer(have, 0, piece.value);
      noise(piece.value) + ([ReplyTo(info, piece.value)] + Answers(info, have[piece.value := true], noise))
  }

  /**
   A peer holding `info` that answers every request, with fewer than sixteen other messages before each answer,
   delivers it whatever was held before, and whatever follows.
   */
  lemma {:induction false} HonestPeerDelivers(info: Text, c: Collected, noise: nat -> seq<Message>,
                                              rest: seq<Message>, fuel: nat)
    requires Matches(info, c) && |info| < TWO_31 && fuel >= SERVED_FUEL
    requires forall piece: nat :: |noise(piece)| < MAX_ATTEMPTS
    requires forall piece: nat, i: nat :: i < |noise(piece)| ==> Ignorable(noise(piece)[i], piece, fuel)
    ensures var r := Fetch(c, Answers(info, c.have, noise) + rest, fuel); r.0 == Stored && r.1.buf == info
    decreases Missing(c.have, 0)
  {
    hide Await, Matches, Ignorable, NextPiece, ReplyTo, Missing, MAX_ATTEMPTS;
    var piece := NextPiece(c.have);
    var all := Answers(info, c.have, noise) + rest;
    if piece.None? {
      CompleteIsInfo(info, c);
    } else {
      var p := piece.value;
      OneFewer(c.have, 0, p);
      var more := Answers(info, c.have[p := true], noise) + rest;
      assert all == noise(p) + ([ReplyTo(info, p)] + more);
      AwaitPasses(c, noise(p), [ReplyTo(info, p)] + more, p, MAX_ATTEMPTS, fuel);
      AwaitsAnswer(info, c, more, p, MAX_ATTEMPTS - |noise(p)|, fuel);
      var r := Await(c, all, p, MAX_ATTEMPTS, fuel);
      HonestPeerDelivers(info, r.1, noise, rest, fuel);
    }
  }

  lemma AwaitsAnswer(info: Text, c: Collected, more: seq<Message>, piece: nat, n: nat, fuel: nat)
    requires Matches(info, c) && NextPiece(c.have) == Some(piece) && |info| < TWO_31 && fuel >= SERVED_FUEL && n > 0
    ensures var r := Await(c, [ReplyTo(info, piece)] + more, piece, n, fuel);
      r.0 == Stored && Matches(info, r.1) && r.1.have == c.have[piece := true] && r.2 == more
  {
    hide Collect, ReplyTo, BodyOf, NextPiece, Matches, Serve;
    var replies := [ReplyTo(info, piece)] + more;
    assert replies[0] == ReplyTo(info, piece) && replies[1..] == more;
    ReplyCarries(info, piece);
    assert piece < PieceCount(|info|) by { PieceIsOne(info, c, piece); }
    ServedPieceIsStored(info, c, piece, fuel);
  }

  lemma ReplyCarries(info: Text, piece: nat)
    ensures BodyOf(ReplyTo(info, piece)) == Some(Serve(info, piece))
  {
    hide Serve;
    assert ([LOCAL_UT_METADATA_ID] + Serve(info, piece))[1..] == Serve(info, piece);
  }

  lemma PieceIsOne(info: Text, c: Collected, piece: nat)
    requires Matches(info, c) && NextPiece(c.have) == Some(piece)
    ensures piece < PieceCount(|info|)
  {
  }

  /** A buffer of the announced size with nothing held yet. */
  function Blank(size: nat): Collected
  {
    Collected(seq(size, _ => 0), seq(PieceCount(size), _ => false))
  }

  lemma BlankMatches(info: Text)
    ensures Matches(info, Blank(|info|))
  {
  }

  // ---------------------------------------------------------------- several peers at once

  /** What the peers' coroutines do to the shared buffer, each step under its lock, in any order. */
  datatype Event =
    | Join(size: int)                     // a peer announces a size
    | Deliver(piece: nat, body: Text)     // a peer asked for the piece sends a body
    | Commit                              // a peer finds nothing missing

  datatype Shared = Shared(size: int, c: Collected, info: Option<Text>)

  predicate Good(info: Text, hash: Text, digest: Text -> Text, accepted: Text -> bool)
  {
    digest(info) == hash && accepted(info)
  }

  function After(s: Shared, e: Event, hash: Text, digest: Text -> Text, accepted: Text -> bool, fuel: nat): Shared
  {
    match e
    case Join(size) => if s.info.None? && s.size < 0 && size > 0 then Shared(size, Blank(size), None) else s
    case Deliver(piece, body) => s.(c := Collect(s.c, body, piece, fuel).1)
    case Commit =>
      if s.info.Some? || s.size <= 0 || |s.c.buf| != s.size || NextPiece(s.c.have).Some? then s
      else if Good(s.c.buf, hash, digest, accepted) then s.(info := Some(s.c.buf))
      else Shared(-1, Collected([], []), None)
  }

  function AfterAll(s: Shared, events: seq<Event>, hash: Text, digest: Text -> Text, accepted: Text -> bool, fuel: nat): Shared
    decreases |events|
  {
    if events == [] then s
    else AfterAll(After(s, events[0], hash, digest, accepted, fuel), events[1..], hash, digest, accepted, fuel)
  }

  /** However the peers interleave and whatever they send, what is committed has the hash and was accepted. */
  lemma {:induction false} CommittedIsGood(s: Shared, events: seq<Event>, hash: Text, digest: Text -> Text,
                                           accepted: Text -> bool, fuel: nat)
    requires s.info.Some? ==> digest(s.info.value) == hash && accepted(s.info.value)
    ensures var r := AfterAll(s, events, hash, digest, accepted, fuel);
      r.info.Some? ==> digest(r.info.value) == hash && accepted(r.info.value)
    decreases |events|
  {
    hide Collect;
    if events != [] { CommittedIsGood(After(s, events[0], hash, digest, accepted, fuel), events[1..], hash, digest, accepted, fuel); }
  }

  /** Peers that announce the right size and send nothing harmful. */
  ghost predicate AllHonest(events: seq<Event>, info: Text, fuel: nat)
  {
    forall i :: 0 <= i < |events| ==>
      match events[i]
      case Join(size) => size == |info|
      case Deliver(_, body) => HarmlessBody(info, body, fuel)
      case Commit => true
  }

  /** Nothing announced yet, or every piece held is right; what is committed is `info`. */
  ghost predicate OnTrack(s: Shared, info: Text)
  {
    && (s.size < 0 ==> s.c == Collected([], [])) && (s.size >= 0 ==> s.size == |info| && Matches(info, s.c))
    && (s.info.Some? ==> s.info.value == info)
  }

  /** However such peers interleave, every piece held is right at every moment and only `info` is committed. */
  lemma {:induction false} HonestPeersStayOnTrack(s: Shared, events: seq<Event>, info: Text, hash: Text, digest: Text -> Text,
                                                  accepted: Text -> bool, fuel: nat)
    requires OnTrack(s, info) && AllHonest(events, info, fuel) && Good(info, hash, digest, accepted)
    ensures OnTrack(AfterAll(s, events, hash, digest, accepted, fuel), info)
    decreases |events|
  {
    hide Collect, Matches, HarmlessBody, NextPiece, Blank;
    if events != [] {
      var next := After(s, events[0], hash, digest, accepted, fuel);
      match events[0] {
        case Join(size) => BlankMatches(info);
        case Deliver(piece, body) => DeliverKeeps(s, piece, body, info, fuel);
        case Commit => if s.size > 0 && NextPiece(s.c.have).None? { CompleteIsInfo(info, s.c); }
      }
      HonestPeersStayOnTrack(next, events[1..], info, hash, digest, accepted, fuel);
    }
  }

  lemma DeliverKeeps(s: Shared, piece: nat, body: Text, info: Text, fuel: nat)
    requires OnTrack(s, info) && HarmlessBody(info, body, fuel)
    ensures OnTrack(s.(c := Collect(s.c, body, piece, fuel).1), info)
  {
    hide Read, Matches, HarmlessBody;
    if s.size >= 0 { HarmlessKeeps(info, s.c, body, piece, fuel); }
  }

  /** What one peer does from start to end is a row of deliveries. */
  lemma {:induction false} FetchIsDeliveries(c: Collected, replies: seq<Message>, fuel: nat) returns (events: seq<Event>)
    ensures forall i :: 0 <= i < |events| ==> events[i].Deliver?
    ensures forall s: Shared, hash, digest, accepted ::
      s.c == c ==> AfterAll(s, events, hash, digest, accepted, fuel) == s.(c := Fetch(c, replies, fuel).1)
    decreases |replies|
  {
    hide Collect, NextPiece, BodyOf;
    var piece := NextPiece(c.have);
    events := [];
    if piece.Some? {
      var r := Await(c, replies, piece.value, MAX_ATTEMPTS, fuel);
      if r.0 == Stored {
        var body := AwaitDelivers(c, replies, piece.value, MAX_ATTEMPTS, fuel);
        var rest := FetchIsDeliveries(r.1, r.2, fuel);
        events := [Deliver(piece.value, body)] + rest;
        forall s: Shared, hash, digest, accepted | s.c == c
          ensures AfterAll(s, events, hash, digest, accepted, fuel) == s.(c := Fetch(c, replies, fuel).1)
        {
          assert events[1..] == rest;
          assert After(s, events[0], hash, digest, accepted, fuel) == s.(c := r.1);
        }
      }
    }
  }

  lemma {:induction false} AwaitDelivers(c: Collected, replies: seq<Message>, piece: nat, n: nat, fuel: nat) returns (body: Text)
    requires Await(c, replies, piece, n, fuel).0 == Stored
    ensures Collect(c, body, piece, fuel).1 == Await(c, replies, piece, n, fuel).1
    decreases n
  {
    hide Collect, BodyOf;
    var first := BodyOf(replies[0]);
    if first.Some? && Collect(c, first.value, piece, fuel).0 != Ignored {
      body := first.value;
    } else {
      body := AwaitDelivers(c, replies[1..], piece, n - 1, fuel);
    }
  }

  lemma {:induction false} InTurn(s: Shared, first: seq<Event>, later: seq<Event>, hash: Text, digest: Text -> Text,
                                  accepted: Text -> bool, fuel: nat)
    ensures AfterAll(s, first + later, hash, digest, accepted, fuel)
         == AfterAll(AfterAll(s, first, hash, digest, accepted, fuel), later, hash, digest, accepted, fuel)
    decreases |first|
  {
    hide After;
    if first == [] {
      assert first + later == later;
    } else {
      assert (first + later)[1..] == first[1..] + later;
      InTurn(After(s, first[0], hash, digest, accepted, fuel), first[1..], later, hash, digest, accepted, fuel);
    }
  }

  /** A peer may take part whose size is the one already announced, or the first. */
  predicate MayJoin(s: Shared, size: int)
  {
    && s.info.None? && size > 0 && (s.size < 0 || s.size == size)
    && (s.size >= 0 ==> |s.c.buf| == s.size && |s.c.have| == PieceCount(s.size))
  }

  /** What a peer leaves behind that sends `replies` and then no more. */
  function Left(s: Shared, size: int, replies: seq<Message>, hash: Text, digest: Text -> Text,
                accepted: Text -> bool, fuel: nat): Shared
    requires MayJoin(s, size)
  {
    var (outcome, c) := Fetch(if s.size < 0 then Blank(size) else s.c, replies, fuel);
    if outcome != Stored then Shared(size, c, None)
    else if digest(c.buf) == hash && accepted(c.buf) then Shared(size, c, Some(c.buf))
    else Shared(-1, Collected([], []), None)
  }

  /** Fetching from one peer is a row of such steps: it joins, delivers, and commits if nothing is missing then. */
  lemma FetchIsARow(s: Shared, size: int, replies: seq<Message>, hash: Text, digest: Text -> Text,
                    accepted: Text -> bool, fuel: nat) returns (events: seq<Event>)
    requires MayJoin(s, size)
    ensures AfterAll(s, events, hash, digest, accepted, fuel) == Left(s, size, replies, hash, digest, accepted, fuel)
    ensures |events| >= 2 && events[0] == Join(size) && events[|events| - 1] == Commit
    ensures forall i :: 0 < i < |events| - 1 ==> events[i].Deliver?
  {
    hide Fetch, Blank, Collect;
    var joined := if s.size < 0 then Shared(size, Blank(size), None) else s;
    assert |joined.c.buf| == size by { assert |Blank(size).buf| == size by { BlankSize(size); } }
    var deliveries := FetchIsDeliveries(joined.c, replies, fuel);
    events := [Join(size)] + (deliveries + [Commit]);
    assert events[1..] == deliveries + [Commit];
    var (outcome, c) := Fetch(joined.c, replies, fuel);
    InTurn(joined, deliveries, [Commit], hash, digest, accepted, fuel);
    assert AfterAll(joined, deliveries, hash, digest, accepted, fuel) == joined.(c := c);
    assert [Commit][1..] == [];
    FetchStored(joined.c, replies, fuel);
  }

  lemma BlankSize(size: nat)
    ensures |Blank(size).buf| == size
  {
  }

  /** Nothing is missing at the end exactly if the peer was read to the end. */
  lemma {:induction false} FetchStored(c: Collected, replies: seq<Message>, fuel: nat)
    ensures var r := Fetch(c, replies, fuel); r.0 == Stored <==> NextPiece(r.1.have).None?
    decreases |replies|
  {
    hide NextPiece, Await;
    var piece := NextPiece(c.have);
    if piece.Some? {
      var r := Await(c, replies, piece.value, MAX_ATTEMPTS, fuel);
      if r.0 == Stored { FetchStored(r.1, r.2, fuel); } else { AwaitFails(c, replies, piece.value, MAX_ATTEMPTS, fuel); }
    }
  }

  lemma {:induction false} AwaitFails(c: Collected, replies: seq<Message>, piece: nat, n: nat, fuel: nat)
    ensures var r := Await(c, replies, piece, n, fuel); r.0 != Stored ==> r.1 == c
    decreases n
  {
    hide Read;
    if n > 0 && replies != [] { AwaitFails(c, replies[1..], piece, n - 1, fuel); }
  }

  // ---------------------------------------------------------------- the download state

  datatype Result = Stuck | Done(ok: bool)

  class MetadataDownload {
    const hash: Text
    const digest: Text -> Text
    const accepted: Text -> bool
    var needsMetadata: bool
    var size: int
    var buf: Text
    var have: seq<bool>
    var info: Text

    /** What is committed has the right hash and was accepted as an info dictionary. */
    ghost predicate Valid()
      reads this
    {
      && (size >= 0 ==> |buf| == size && |have| == PieceCount(size))
      && (size < 0 ==> buf == [] && have == [])
      && (!needsMetadata ==> IsInfo(info))
    }

    predicate IsInfo(bytes: Text) { digest(bytes) == hash && accepted(bytes) }

    /** A magnet link: only the hash is known. */
    constructor (hash: Text, digest: Text -> Text, accepted: Text -> bool)
      ensures Valid() && needsMetadata && size < 0
      ensures this.hash == hash && this.digest == digest && this.accepted == accepted
    {
      this.hash, this.digest, this.accepted := hash, digest, accepted;
      needsMetadata, size, buf, have, info := true, -1, [], [], [];
    }

    method TryCommit() returns (ok: bool)
      requires Valid()
      modifies this
      ensures Valid()
      ensures old(!needsMetadata || size <= 0 || NextPiece(have).Some?) ==>
        ok == !old(needsMetadata) && needsMetadata == old(needsMetadata) && info == old(info)
        && size == old(size) && buf == old(buf) && have == old(have)
      ensures old(needsMetadata && size > 0 && NextPiece(have).None?) ==>
        ok == !needsMetadata == (digest(old(buf)) == hash && accepted(old(buf)))
        && (ok ==> info == buf == old(buf) && size == old(size) && have == old(have))
        && (!ok ==> size == -1 && buf == [] && have == [] && info == old(info))
    {
      if !needsMetadata {
        return true;
      }
      if size <= 0 || |buf| != size {
        return false;
      }
      for i := 0 to |have|
        invariant forall j :: 0 <= j < i ==> have[j]
      {
        if !have[i] {
          return false;
        }
      }
      if digest(buf) != hash || !accepted(buf) {
        buf, have, size := [], [], -1;
        return false;
      }
      info, needsMetadata := buf, false;
      return true;
    }

    /** Up to sixteen messages for one piece; `used` counts those read. */
    method AwaitPiece(replies: seq<Message>, piece: nat, fuel: nat) returns (outcome: Outcome, used: nat)
      requires Valid() && size >= 0 && piece < |have|
      requires forall i :: 0 <= i < |replies| ==> |replies[i].payload| < MAX_MESSAGE
      modifies this`buf, this`have
      ensures Valid() && used <= |replies|
      ensures (outcome, Collected(buf, have), replies[used..])
           == Await(old(Collected(buf, have)), replies, piece, MAX_ATTEMPTS, fuel)
    {
      hide Collect, BodyOf, Await;
      used := 0;
      var attempt := 0;
      ghost var c := Collected(buf, have);
      while attempt < MAX_ATTEMPTS
        invariant attempt <= MAX_ATTEMPTS && used <= |replies| && buf == old(buf) && have == old(have)
        invariant Await(c, replies, piece, MAX_ATTEMPTS, fuel)
               == Await(c, replies[used..], piece, MAX_ATTEMPTS - attempt, fuel)
      {
        if used == |replies| {
          AwaitOver(c, [], piece, MAX_ATTEMPTS - attempt, fuel);
          return Failed, used;
        }
        assert replies[used..][0] == replies[used] && replies[used..][1..] == replies[used + 1..];
        AwaitStep(c, replies[used..], piece, MAX_ATTEMPTS - attempt, fuel);
        var body := BodyOf(replies[used]);
        used := used + 1;
        if body.Some? {
          var next: Collected;
          outcome, next := HandleBody(Collected(buf, have), body.value, piece, fuel);
          if outcome != Ignored {
            AwaitKeepsSizes(c, replies, piece, MAX_ATTEMPTS, fuel);
            buf, have := next.buf, next.have;
            return;
          }
        }
        attempt := attempt + 1;
      }
      AwaitOver(c, replies[used..], piece, 0, fuel);
      return Failed, used;
    }

    /** `fetchMetadataFromPeer`, with the messages the peer sends. */
    method FetchFromPeer(peerUtMetadata: byte, peerSize: int, replies: seq<Message>, fuel: nat) returns (r: Result)
      requires Valid()
      requires forall i :: 0 <= i < |replies| ==> |replies[i].payload| < MAX_MESSAGE
      modifies this
      ensures Valid()
      ensures var asked := old(needsMetadata) && peerUtMetadata != 0 && peerSize > 0 && old(size < 0 || size == peerSize);
        if !asked then
          r == Done(false) && needsMetadata == old(needsMetadata) && size == old(size) && buf == old(buf)
          && have == old(have) && info == old(info)
        else
          var start := if old(size) < 0 then Blank(peerSize) else old(Collected(buf, have));
          var (outcome, c) := Fetch(start, replies, fuel);
          if outcome != Stored then
            r == (if outcome == Hung then Stuck else Done(false)) && needsMetadata && size == peerSize
            && Collected(buf, have) == c && info == old(info)
          else
            r == Done(IsInfo(c.buf)) && needsMetadata == !IsInfo(c.buf)
            && (IsInfo(c.buf) ==> info == c.buf)
            && (!IsInfo(c.buf) ==> size == -1 && buf == [] && have == [] && info == old(info))
    {
      hide Await, Collect;
      if !needsMetadata || peerUtMetadata == 0 || peerSize <= 0 {
        return Done(false);
      }
      if size < 0 {
        size := peerSize;
        buf := seq(peerSize, _ => 0);
        have := seq(PieceCount(peerSize), _ => false);
      } else if size != peerSize {
        return Done(false);
      }
      ghost var start := Collected(buf, have);
      var read := 0;
      var piece := NextMissing();
      while piece.Some?
        invariant Valid() && needsMetadata && size == peerSize && info == old(info) && read <= |replies|
        invariant piece == NextPiece(have)
        invariant Fetch(start, replies, fuel) == Fetch(Collected(buf, have), replies[read..], fuel)
        decreases |replies| - read
      {
        var outcome, used := AwaitPiece(replies[read..], piece.value, fuel);
        assert replies[read..][used..] == replies[read + used..];
        if outcome != Stored {
          return if outcome == Hung then Stuck else Done(false);
        }
        read := read + used;
        piece := NextMissing();
      }
      var ok := TryCommit();
      return Done(ok);
    }

    method NextMissing() returns (r: Option<nat>)
      ensures r == NextPiece(have)
    {
      for i := 0 to |have|
        invariant FirstMissing(have, 0) == FirstMissing(have, i)
      {
        if !have[i] {
          return Some(i);
        }
      }
      return None;
    }
  }

  /** A whole download from a peer that holds the right info dictionary and answers. */
  method FetchAll(d: MetadataDownload, info: Text, ghost noise: nat -> seq<Message>, ghost rest: seq<Message>,
                  replies: seq<Message>, fuel: nat) returns (r: Result)
    requires d.Valid() && d.needsMetadata && d.size < 0 && d.IsInfo(info)
    requires 0 < |info| < TWO_31 && fuel >= SERVED_FUEL
    requires forall piece: nat :: |noise(piece)| < MAX_ATTEMPTS
    requires forall piece: nat, i: nat :: i < |noise(piece)| ==> Ignorable(noise(piece)[i], piece, fuel)
    requires replies == Answers(info, Blank(|info|).have, noise) + rest
    requires forall i :: 0 <= i < |replies| ==> |replies[i].payload| < MAX_MESSAGE
    modifies d
    ensures r == Done(true) && d.Valid() && !d.needsMetadata && d.info == info
  {
    hide Fetch, Answers, Matches, Ignorable;
    BlankMatches(info);
    HonestPeerDelivers(info, Blank(|info|), noise, rest, fuel);
    r := d.FetchFromPeer(1, |info|, replies, fuel);
  }
}
