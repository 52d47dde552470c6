/** A torrent's files, kept separately but addressed as one flat array cut into hashed pieces. */
module PieceStorage {
  import opened Bytes

  type Blob = seq<byte>

  // ---------------------------------------------------------------- files as one array

  function Lengths(files: seq<Blob>): (r: seq<nat>)
    ensures |r| == |files| && forall i :: 0 <= i < |files| ==> r[i] == |files[i]|
  {
    seq(|files|, i requires 0 <= i < |files| => |files[i]|)
  }

  /** Where file `i` begins in the flat array. */
  function Offset(lengths: seq<nat>, i: nat): (o: nat)
    requires i <= |lengths|
    decreases i
  {
    if i == 0 then 0 else Offset(lengths, i - 1) + lengths[i - 1]
  }

  function Total(lengths: seq<nat>): nat { Offset(lengths, |lengths|) }

  function Flat(files: seq<Blob>): Blob { Concat(files) }

  lemma {:induction false} FlatPrefix(files: seq<Blob>, i: nat)
    requires i <= |files|
    ensures |Flat(files[..i])| == Offset(Lengths(files), i)
    decreases i
  {
    if i > 0 {
      FlatPrefix(files, i - 1);
      assert files[..i] == files[..i - 1] + [files[i - 1]];
      ConcatAppend(files[..i - 1], [files[i - 1]]);
      assert Concat([files[i - 1]]) == files[i - 1];
    }
  }

  /** The flat array around one file. */
  lemma FlatAround(files: seq<Blob>, i: nat)
    requires i < |files|
    ensures Flat(files) == Flat(files[..i]) + files[i] + Flat(files[i + 1..])
    ensures |Flat(files[..i])| == Offset(Lengths(files), i) && |Flat(files)| == Total(Lengths(files))
  {
    hide Concat, Offset, Lengths;
    FlatPrefix(files, i);
    FlatPrefix(files, |files|);
    assert files[..|files|] == files;
    var front, file, back := files[..i], files[i], files[i + 1..];
    assert files == front + ([file] + back);
    ConcatAppend(front, [file] + back);
    ConcatAppend([file], back);
    ConcatOne(file);
  }

  lemma FlatLength(files: seq<Blob>)
    ensures |Flat(files)| == Total(Lengths(files))
  {
    FlatPrefix(files, |files|);
    assert files[..|files|] == files;
  }

  /** `s` with the bytes from `at` on replaced by `data`. */
  function Patched(s: Blob, at: nat, data: Blob): (r: Blob)
    requires at + |data| <= |s|
    ensures |r| == |s|
  {
    s[..at] + data + s[at + |data|..]
  }

  lemma PatchedTwice(s: Blob, at: nat, a: Blob, b: Blob)
    requires at + |a| + |b| <= |s|
    ensures Patched(Patched(s, at, a), at + |a|, b) == Patched(s, at, a + b)
  {
  }

  /** Patching one file patches the flat array. */
  lemma FlatPatched(files: seq<Blob>, i: nat, at: nat, data: Blob)
    requires i < |files| && at + |data| <= |files[i]|
    ensures var o := Offset(Lengths(files), i) + at;
      var after := files[i := Patched(files[i], at, data)];
      Lengths(after) == Lengths(files) && o + |data| <= |Flat(files)| && Flat(after) == Patched(Flat(files), o, data)
  {
    hide Flat, Patched;
    var after := files[i := Patched(files[i], at, data)];
    assert Lengths(after) == Lengths(files);
    FlatAround(files, i);
    FlatAround(after, i);
    assert after[..i] == files[..i] && after[i + 1..] == files[i + 1..];
    PatchMiddle(Flat(files[..i]), files[i], Flat(files[i + 1..]), at, data);
  }

  lemma PatchMiddle(front: Blob, s: Blob, back: Blob, at: nat, data: Blob)
    requires at + |data| <= |s|
    ensures Patched(front + s + back, |front| + at, data) == front + Patched(s, at, data) + back
  {
    var all, o := front + s + back, |front| + at;
    assert all[..o] == front + s[..at];
    assert all[o + |data|..] == s[at + |data|..] + back;
  }

  lemma FlatSlice(files: seq<Blob>, i: nat, at: nat, n: nat)
    requires i < |files| && at + n <= |files[i]|
    ensures var o := Offset(Lengths(files), i) + at;
      o + n <= |Flat(files)| && Flat(files)[o..o + n] == files[i][at..at + n]
  {
    hide Flat, Offset, Lengths;
    FlatAround(files, i);
    SliceMiddle(Flat(files[..i]), files[i], Flat(files[i + 1..]), at, n);
  }

  lemma SliceMiddle(front: Blob, s: Blob, back: Blob, at: nat, n: nat)
    requires at + n <= |s|
    ensures (front + s + back)[|front| + at..|front| + at + n] == s[at..at + n]
  {
  }

  // ---------------------------------------------------------------- spans

  datatype Span = Span(file: nat, at: nat, take: nat)

  /** The spans lie end to end from `g` on and make up `n` bytes. */
  predicate Tiles(lengths: seq<nat>, spans: seq<Span>, g: nat, n: nat)
    decreases |spans|
  {
    if spans == [] then n == 0
    else
      var s := spans[0];
      && s.file < |lengths| && s.at + s.take <= lengths[s.file] && Offset(lengths, s.file) + s.at == g
      && 0 < s.take <= n && Tiles(lengths, spans[1..], g + s.take, n - s.take)
  }

  lemma {:induction false} TilesAppend(lengths: seq<nat>, spans: seq<Span>, g: nat, n: nat, s: Span)
    requires Tiles(lengths, spans, g, n)
    requires s.file < |lengths| && s.at + s.take <= lengths[s.file] && Offset(lengths, s.file) + s.at == g + n && s.take > 0
    ensures Tiles(lengths, spans + [s], g, n + s.take)
    decreases |spans|
  {
    hide Offset;
    if spans == [] {
      assert [s][1..] == [];
    } else {
      TilesAppend(lengths, spans[1..], g + spans[0].take, n - spans[0].take, s);
      assert (spans + [s])[1..] == spans[1..] + [s];
    }
  }

  /** Reading span after span. */
  function ReadSpans(files: seq<Blob>, spans: seq<Span>, g: nat, n: nat): Blob
    requires Tiles(Lengths(files), spans, g, n)
    decreases |spans|
  {
    if spans == [] then []
    else files[spans[0].file][spans[0].at..spans[0].at + spans[0].take]
         + ReadSpans(files, spans[1..], g + spans[0].take, n - spans[0].take)
  }

  lemma {:induction false} ReadsFlat(files: seq<Blob>, spans: seq<Span>, g: nat, n: nat)
    requires Tiles(Lengths(files), spans, g, n) && g <= |Flat(files)|
    ensures g + n <= |Flat(files)| && ReadSpans(files, spans, g, n) == Flat(files)[g..g + n]
    decreases |spans|
  {
    hide Flat, Offset, Lengths, ReadSpans, Tiles;
    if spans == [] {
      ReadNothing(files, g, n);
    } else {
      var s := spans[0];
      ReadStep(files, spans, g, n);
      FlatSlice(files, s.file, s.at, s.take);
      ReadsFlat(files, spans[1..], g + s.take, n - s.take);
      SliceJoins(Flat(files), g, g + s.take, g + n);
    }
  }

  lemma ReadStep(files: seq<Blob>, spans: seq<Span>, g: nat, n: nat)
    requires Tiles(Lengths(files), spans, g, n) && spans != []
    ensures var s := spans[0];
      && s.file < |files| && s.at + s.take <= |files[s.file]| && s.take <= n
      && Offset(Lengths(files), s.file) + s.at == g
      && Tiles(Lengths(files), spans[1..], g + s.take, n - s.take)
      && ReadSpans(files, spans, g, n)
         == files[s.file][s.at..s.at + s.take] + ReadSpans(files, spans[1..], g + s.take, n - s.take)
  {
  }

  lemma TilesStep(lengths: seq<nat>, spans: seq<Span>, g: nat, n: nat)
    requires Tiles(lengths, spans, g, n) && spans != []
    ensures var s := spans[0];
      && s.file < |lengths| && s.at + s.take <= lengths[s.file] && s.take <= n && Offset(lengths, s.file) + s.at == g
      && Tiles(lengths, spans[1..], g + s.take, n - s.take)
  {
  }

  lemma NoMoreTiles(lengths: seq<nat>, g: nat, n: nat)
    ensures Tiles(lengths, [], g, n) ==> n == 0
  {
  }

  lemma ReadNothing(files: seq<Blob>, g: nat, n: nat)
    ensures Tiles(Lengths(files), [], g, n) ==> n == 0 && ReadSpans(files, [], g, n) == []
  {
  }

  lemma TileFits(files: seq<Blob>, s: Span)
    requires s.file < |files| && s.at + s.take <= Lengths(files)[s.file]
    ensures s.at + s.take <= |files[s.file]|
  {
  }

  lemma SliceJoins(b: Blob, i: nat, j: nat, k: nat)
    requires i <= j <= k <= |b|
    ensures b[i..k] == b[i..j] + b[j..k]
  {
  }

  // ---------------------------------------------------------------- pieces

  function CeilDiv(total: nat, size: nat): nat
    requires size > 0
  {
    DivNonNegative(total + size - 1, size);
    (total + size - 1) / size
  }

  function Start(size: nat, piece: nat): nat { piece * size }

  /** Zero for an index out of range. */
  function PieceLength(total: nat, size: nat, count: nat, piece: int): int
  {
    if piece < 0 || piece >= count then 0 else Min(Start(size, piece) + size, total) - Start(size, piece)
  }

  lemma NoSuchPiece(total: nat, size: nat, piece: int)
    requires size > 0 && (piece < 0 || piece >= CeilDiv(total, size))
    ensures PieceLength(total, size, CeilDiv(total, size), piece) == 0
  {
  }

  lemma StartStep(size: nat, piece: nat)
    ensures Start(size, piece + 1) == Start(size, piece) + size
  {
  }

  lemma StartMonotonic(size: nat, i: nat, j: nat)
    requires i <= j
    ensures Start(size, i) <= Start(size, j)
  {
    MulMonotonic(i, j, size);
  }

  lemma CountBounds(total: nat, size: nat)
    requires size > 0
    ensures var n := CeilDiv(total, size); total <= Start(size, n) && (n > 0 ==> Start(size, n - 1) < total)
  {
    var q, r := DivMod(total + size - 1, size);
    if q > 0 { StartStep(size, q - 1); }
  }

  /** Every piece is non-empty, lies inside the array and ends where the next one starts. */
  lemma PieceInside(total: nat, size: nat, piece: nat)
    requires size > 0 && piece < CeilDiv(total, size)
    ensures var n := PieceLength(total, size, CeilDiv(total, size), piece);
      0 < n <= size && Start(size, piece) + n <= total && Start(size, piece) + n <= Start(size, piece + 1)
  {
    hide CeilDiv, Start;
    CountBounds(total, size);
    StartMonotonic(size, piece, CeilDiv(total, size) - 1);
    StartStep(size, piece);
  }

  /** Total length of the pieces below `k` marked in `have`. */
  function HeldBytes(total: nat, size: nat, have: seq<bool>, k: nat): int
    requires k <= |have|
    decreases k
  {
    if k == 0 then 0
    else HeldBytes(total, size, have, k - 1) + (if have[k - 1] then PieceLength(total, size, |have|, k - 1) else 0)
  }

  lemma {:induction false} AllBytes(total: nat, size: nat, have: seq<bool>, k: nat)
    requires size > 0 && |have| == CeilDiv(total, size) && k <= |have| && forall i :: 0 <= i < k ==> have[i]
    ensures HeldBytes(total, size, have, k) == Min(Start(size, k), total)
    decreases k
  {
    hide CeilDiv, Start;
    if k == 0 {
      assert Start(size, 0) == 0 by { StartZero(size); }
    } else {
      AllBytes(total, size, have, k - 1);
      PieceInside(total, size, k - 1);
      StartStep(size, k - 1);
    }
  }

  lemma StartZero(size: nat)
    ensures Start(size, 0) == 0
  {
  }

  lemma {:induction false} SomeBytes(total: nat, size: nat, have: seq<bool>, k: nat)
    requires size > 0 && |have| == CeilDiv(total, size) && k <= |have|
    ensures 0 <= HeldBytes(total, size, have, k) <= Min(Start(size, k), total)
    ensures HeldBytes(total, size, have, k) == Min(Start(size, k), total) ==> forall i :: 0 <= i < k ==> have[i]
    decreases k
  {
    hide CeilDiv, Start;
    if k == 0 {
      StartZero(size);
    } else {
      SomeBytes(total, size, have, k - 1);
      PieceInside(total, size, k - 1);
      StartStep(size, k - 1);
    }
  }

  /** The piece lengths add up to the total. */
  lemma PiecesCoverAll(total: nat, size: nat)
    requires size > 0
    ensures var all := seq(CeilDiv(total, size), _ => true); HeldBytes(total, size, all, |all|) == total
  {
    hide CeilDiv, Start, HeldBytes;
    var all := seq(CeilDiv(total, size), _ => true);
    CountBounds(total, size);
    AllBytes(total, size, all, |all|);
  }

  /** Nothing is left exactly when every piece is held. */
  lemma NothingLeftExactly(total: nat, size: nat, have: seq<bool>)
    requires size > 0 && |have| == CeilDiv(total, size)
    ensures total - HeldBytes(total, size, have, |have|) == 0 <==> forall i :: 0 <= i < |have| ==> have[i]
  {
    hide CeilDiv, Start, HeldBytes;
    CountBounds(total, size);
    SomeBytes(total, size, have, |have|);
    if forall i :: 0 <= i < |have| ==> have[i] { AllBytes(total, size, have, |have|); }
  }

  // ---------------------------------------------------------------- counting bytes

  /** The byte at `g` of the flat array belongs to one of the first `k` pieces that is held. */
  ghost predicate InHeld(size: nat, have: seq<bool>, k: nat, g: int)
    requires k <= |have|
  {
    exists i :: 0 <= i < k && have[i] && Start(size, i) <= g < Start(size, i) + size
  }

  ghost function Interval(a: int, b: int): (r: set<int>)
    ensures forall g :: g in r <==> a <= g < b
    ensures |r| == if a <= b then b - a else 0
    decreases b - a
  {
    if a >= b then {} else Interval(a, b - 1) + {b - 1}
  }

  ghost function HeldPlaces(total: nat, size: nat, have: seq<bool>, k: nat): set<int>
    requires k <= |have|
  {
    set g | g in Interval(0, total) && InHeld(size, have, k, g)
  }

  lemma EarlierEnds(size: nat, i: nat, k: nat)
    requires i < k
    ensures Start(size, i) + size <= Start(size, k)
  {
    hide Start;
    StartStep(size, i);
    StartMonotonic(size, i + 1, k);
  }

  /** A byte is in the first `k` held pieces if it is in the first `k - 1`, or in the last of them. */
  lemma InHeldStep(size: nat, have: seq<bool>, k: nat, g: int)
    requires 0 < k <= |have|
    ensures var here := Start(size, k - 1) <= g < Start(size, k - 1) + size;
      && (InHeld(size, have, k, g) <==> InHeld(size, have, k - 1, g) || (have[k - 1] && here))
      && !(InHeld(size, have, k - 1, g) && here)
  {
    hide Start;
    if InHeld(size, have, k - 1, g) {
      var i :| 0 <= i < k - 1 && have[i] && Start(size, i) <= g < Start(size, i) + size;
      EarlierEnds(size, i, k - 1);
      assert InHeld(size, have, k, g);
    }
  }

  lemma PlaceStep(total: nat, size: nat, have: seq<bool>, k: nat, g: int)
    requires size > 0 && |have| == CeilDiv(total, size) && 0 < k <= |have|
    ensures var start := Start(size, k - 1);
      var here := start <= g < start + PieceLength(total, size, |have|, k - 1);
      && (g in HeldPlaces(total, size, have, k) <==> g in HeldPlaces(total, size, have, k - 1) || (have[k - 1] && here))
      && !(g in HeldPlaces(total, size, have, k - 1) && here)
  {
    hide CeilDiv, Start, InHeld, Interval;
    PieceInside(total, size, k - 1);
    InHeldStep(size, have, k, g);
  }

  lemma HeldPlacesStep(total: nat, size: nat, have: seq<bool>, k: nat)
    requires size > 0 && |have| == CeilDiv(total, size) && 0 < k <= |have|
    ensures var here := Interval(Start(size, k - 1), Start(size, k - 1) + PieceLength(total, size, |have|, k - 1));
      && HeldPlaces(total, size, have, k) == HeldPlaces(total, size, have, k - 1) + (if have[k - 1] then here else {})
      && HeldPlaces(total, size, have, k - 1) !! here
  {
    hide *;
    var before, after := HeldPlaces(total, size, have, k - 1), HeldPlaces(total, size, have, k);
    var here := Interval(Start(size, k - 1), Start(size, k - 1) + PieceLength(total, size, |have|, k - 1));
    forall g: int
      ensures g in after <==> g in before || (have[k - 1] && g in here)
      ensures !(g in before && g in here)
    {
      PlaceStep(total, size, have, k, g);
    }
  }

  /** The held lengths add up to the number of bytes in held pieces. */
  lemma {:induction false} HeldIsCount(total: nat, size: nat, have: seq<bool>, k: nat)
    requires size > 0 && |have| == CeilDiv(total, size) && k <= |have|
    ensures HeldBytes(total, size, have, k) == |HeldPlaces(total, size, have, k)|
    decreases k
  {
    hide CeilDiv, Start, HeldPlaces, PieceLength;
    if k == 0 {
      assert HeldPlaces(total, size, have, 0) == {} by { NoPlaces(total, size, have); }
    } else {
      HeldIsCount(total, size, have, k - 1);
      HeldPlacesStep(total, size, have, k);
      var a, n := Start(size, k - 1), PieceLength(total, size, |have|, k - 1);
      PieceInside(total, size, k - 1);
      assert |Interval(a, a + n)| == n;
    }
  }

  lemma NoPlaces(total: nat, size: nat, have: seq<bool>)
    ensures HeldPlaces(total, size, have, 0) == {}
  {
  }

  /** What is left is the number of bytes outside the held pieces. */
  lemma LeftIsCount(total: nat, size: nat, have: seq<bool>)
    requires size > 0 && |have| == CeilDiv(total, size)
    ensures total - HeldBytes(total, size, have, |have|) == |set g | g in Interval(0, total) && !InHeld(size, have, |have|, g)|
  {
    hide CeilDiv, Start, HeldBytes, InHeld;
    HeldIsCount(total, size, have, |have|);
    assert |Interval(0, total)| == total;
    var held := HeldPlaces(total, size, have, |have|);
    var left := set g | g in Interval(0, total) && !InHeld(size, have, |have|, g);
    assert Interval(0, total) == held + left && held !! left;
  }

  lemma {:induction false} HoldOne(total: nat, size: nat, have: seq<bool>, k: nat, p: nat)
    requires k <= |have| && p < |have| && !have[p]
    ensures HeldBytes(total, size, have[p := true], k)
         == HeldBytes(total, size, have, k) + (if p < k then PieceLength(total, size, |have|, p) else 0)
    decreases k
  {
    hide PieceLength;
    if k > 0 { HoldOne(total, size, have, k - 1, p); }
  }

  // ---------------------------------------------------------------- the store

  /** The layout of a torrent: file lengths, piece size and number of pieces. */
  datatype Layout = Layout(lengths: seq<nat>, size: nat, count: nat)

  predicate GoodLayout(m: Layout)
  {
    m.size > 0 && m.count == CeilDiv(Total(m.lengths), m.size)
  }

  function PieceLen(m: Layout, piece: int): int { PieceLength(Total(m.lengths), m.size, m.count, piece) }

  /** The request lies inside the piece. */
  predicate InRange(m: Layout, piece: int, offset: int, length: int)
  {
    0 <= piece < m.count && offset >= 0 && length > 0 && offset + length <= PieceLen(m, piece)
  }

  /** A request the store accepts: its end is taken in 32 bits, and the files must reach that far. */
  predicate Accepts(m: Layout, piece: int, offset: Int32, length: Int32)
  {
    && 0 <= piece < m.count && offset >= 0 && length > 0 && ToInt32(offset + length) <= PieceLen(m, piece)
    && Start(m.size, piece) + offset + length <= Total(m.lengths)
  }

  lemma RequestInside(m: Layout, piece: int, offset: int, length: int)
    requires GoodLayout(m) && InRange(m, piece, offset, length)
    ensures Start(m.size, piece) + offset + length <= Total(m.lengths) && offset + length <= m.size
  {
    hide Start, CeilDiv, Offset;
    PieceInside(Total(m.lengths), m.size, piece);
  }

  lemma PieceFits(m: Layout, piece: nat)
    requires GoodLayout(m) && piece < m.count
    ensures 0 < PieceLen(m, piece) <= m.size
  {
    PieceInside(Total(m.lengths), m.size, piece);
  }

  /** A request whose end fits 32 bits is accepted iff it lies inside the piece; accepted beyond that, it never does. */
  lemma AcceptsExactly(m: Layout, piece: int, offset: Int32, length: Int32)
    requires GoodLayout(m) && m.size < TWO_31
    ensures offset + length < TWO_31 ==> (Accepts(m, piece, offset, length) <==> InRange(m, piece, offset, length))
    ensures offset + length >= TWO_31 ==> !InRange(m, piece, offset, length)
  {
    hide Start, CeilDiv, Offset, PieceLength, ToInt32;
    Int32Kept(offset + length);
    if 0 <= piece < m.count { PieceFits(m, piece); }
    if InRange(m, piece, offset, length) { RequestInside(m, piece, offset, length); }
  }

  /** Every accepted request lies inside its piece. */
  ghost predicate StaysInPiece(m: Layout)
  {
    forall piece: int, offset: Int32, length: Int32 ::
      Accepts(m, piece, offset, length) ==> InRange(m, piece, offset, length)
  }

  /** For one byte at 2^31 - 1 the end wraps: accepted for the first piece of a torrent of 2 GiB or more. */
  lemma WrappedEndIsAccepted(m: Layout)
    requires GoodLayout(m) && m.size < TWO_31 <= Total(m.lengths)
    ensures Accepts(m, 0, TWO_31 - 1, 1) && !InRange(m, 0, TWO_31 - 1, 1)
  {
    hide CeilDiv, Offset, PieceLength, ToInt32, Start;
    CountBounds(Total(m.lengths), m.size);
    StartZero(m.size);
    PieceFits(m, 0);
    Int32Kept(TWO_31);
    AcceptsExactly(m, 0, TWO_31 - 1, 1);
  }

  /** Requests stay in their pieces exactly for torrents below 2 GiB. */
  lemma StaysInPieceExactly(m: Layout)
    requires GoodLayout(m) && m.size < TWO_31
    ensures StaysInPiece(m) <==> Total(m.lengths) < TWO_31
  {
    hide Accepts, InRange, GoodLayout, Total;
    if Total(m.lengths) < TWO_31 {
      forall piece: int, offset: Int32, length: Int32 | Accepts(m, piece, offset, length)
        ensures InRange(m, piece, offset, length)
      {
        AcceptedEnds(m, piece, offset, length);
        AcceptsExactly(m, piece, offset, length);
      }
    } else {
      WrappedEndIsAccepted(m);
    }
  }

  lemma AcceptedEnds(m: Layout, piece: int, offset: Int32, length: Int32)
    requires Accepts(m, piece, offset, length)
    ensures offset + length <= Total(m.lengths)
  {
    hide ToInt32, Offset;
  }

  function PieceBytes(m: Layout, flat: Blob, piece: nat): Blob
    requires GoodLayout(m) && piece < m.count && |flat| == Total(m.lengths)
  {
    PieceInside(Total(m.lengths), m.size, piece);
    flat[Start(m.size, piece)..Start(m.size, piece) + PieceLen(m, piece)]
  }

  /** Writing one piece leaves the bytes of every other piece alone. */
  lemma OtherPieceKept(m: Layout, flat: Blob, piece: nat, data: Blob, other: nat)
    requires GoodLayout(m) && piece < m.count && other < m.count && |flat| == Total(m.lengths)
    requires |data| == PieceLen(m, piece) && Start(m.size, piece) + |data| <= |flat|
    ensures PieceBytes(m, Patched(flat, Start(m.size, piece), data), other)
         == if other == piece then data else PieceBytes(m, flat, other)
  {
    hide Start, CeilDiv, Offset, PieceLength, Patched;
    PieceInside(Total(m.lengths), m.size, piece);
    PieceInside(Total(m.lengths), m.size, other);
    var at, from := Start(m.size, piece), Start(m.size, other);
    var to := from + PieceLen(m, other);
    if other < piece {
      StartMonotonic(m.size, other + 1, piece);
      BeforePatch(flat, at, data, from, to);
    } else if piece < other {
      StartMonotonic(m.size, piece + 1, other);
      BehindPatch(flat, at, data, from, to);
    } else {
      InPatch(flat, at, data);
    }
  }

  lemma BeforePatch(s: Blob, at: nat, data: Blob, from: nat, to: nat)
    requires from <= to <= at && at + |data| <= |s|
    ensures Patched(s, at, data)[from..to] == s[from..to]
  {
  }

  lemma BehindPatch(s: Blob, at: nat, data: Blob, from: nat, to: nat)
    requires at + |data| <= from <= to <= |s|
    ensures Patched(s, at, data)[from..to] == s[from..to]
  {
    var p := Patched(s, at, data);
    forall k | from <= k < to ensures p[k] == s[k] {}
  }

  lemma InPatch(s: Blob, at: nat, data: Blob)
    requires at + |data| <= |s|
    ensures Patched(s, at, data)[at..at + |data|] == data
  {
  }

  ghost predicate Verified(m: Layout, flat: Blob, have: seq<bool>, hashes: seq<Blob>, digest: Blob -> Blob)
  {
    && GoodLayout(m) && |flat| == Total(m.lengths) && |have| == m.count && |hashes| == m.count
    && forall i :: 0 <= i < m.count && have[i] ==> digest(PieceBytes(m, flat, i)) == hashes[i]
  }

  lemma CommitVerified(m: Layout, flat: Blob, have: seq<bool>, hashes: seq<Blob>, digest: Blob -> Blob, piece: nat, data: Blob)
    requires Verified(m, flat, have, hashes, digest) && piece < m.count
    requires |data| == PieceLen(m, piece) && Start(m.size, piece) + |data| <= |flat| && digest(data) == hashes[piece]
    ensures Verified(m, Patched(flat, Start(m.size, piece), data), have[piece := true], hashes, digest)
  {
    hide Start, CeilDiv, Offset, PieceLength, PieceBytes, Patched;
    forall i | 0 <= i < m.count && have[piece := true][i]
      ensures digest(PieceBytes(m, Patched(flat, Start(m.size, piece), data), i)) == hashes[i]
    {
      OtherPieceKept(m, flat, piece, data, i);
    }
  }

  class Storage {
    const m: Layout
    const offsets: seq<nat>
    const hashes: seq<Blob>
    const digest: Blob -> Blob
    var files: seq<Blob>
    var have: seq<bool>
    var haveBytes: int

    ghost predicate Shape()
      reads this
    {
      && GoodLayout(m) && Lengths(files) == m.lengths && |hashes| == m.count && |have| == m.count
      && |offsets| == |m.lengths| && (forall i :: 0 <= i < |offsets| ==> offsets[i] == Offset(m.lengths, i))
      && |Flat(files)| == Total(m.lengths)
    }

    ghost predicate Valid()
      reads this
    {
      && Shape()
      && haveBytes == HeldBytes(Total(m.lengths), m.size, have, |have|)
      && Verified(m, Flat(files), have, hashes, digest)
    }

    /** Opens files that already have their lengths, and finds out which pieces they hold. */
    constructor (files: seq<Blob>, size: nat, hashes: seq<Blob>, digest: Blob -> Blob)
      requires 0 < size < TWO_31 && |hashes| == CeilDiv(Total(Lengths(files)), size)
      ensures Valid() && Flat(this.files) == Flat(files)
      ensures m == Layout(Lengths(files), size, |hashes|) && this.hashes == hashes && this.digest == digest
      ensures forall i :: 0 <= i < m.count ==> (have[i] <==> digest(PieceBytes(m, Flat(files), i)) == hashes[i])
    {
      hide CeilDiv, Flat;
      var lengths := Lengths(files);
      m := Layout(lengths, size, |hashes|);
      offsets := seq(|lengths|, i requires 0 <= i < |lengths| => Offset(lengths, i));
      this.hashes, this.digest, this.files := hashes, digest, files;
      have, haveBytes := seq(|hashes|, _ => false), 0;
      new;
      FlatLength(files);
      forall i | 0 <= i < m.count ensures PieceLen(m, i) < TWO_31 { PieceInside(Total(lengths), size, i); }
      CheckAll();
    }

    function BytesLeft(): (left: int)
      requires Valid()
      reads this
      ensures left == 0 <==> forall i :: 0 <= i < |have| ==> have[i]
      ensures left == |set g | g in Interval(0, Total(m.lengths)) && !InHeld(m.size, have, |have|, g)|
    {
      NothingLeftExactly(Total(m.lengths), m.size, have);
      LeftIsCount(Total(m.lengths), m.size, have);
      Total(m.lengths) - haveBytes
    }

    /** Finds the parts of files that make up a request. */
    method MapPiece(piece: int, offset: Int32, length: Int32) returns (ok: bool, spans: seq<Span>)
      requires Shape()
      ensures ok == Accepts(m, piece, offset, length)
      ensures ok ==> Tiles(m.lengths, spans, Start(m.size, piece) + offset, length)
    {
      hide Offset, CeilDiv, PieceLength, Start, Lengths, Flat, ToInt32;
      spans := [];
      if piece < 0 || piece >= m.count || offset < 0 || length <= 0 {
        return false, spans;
      }
      if ToInt32(offset + length) > PieceLen(m, piece) {
        return false, spans;
      }
      StartIs(m.size, piece);
      ok, spans := Cover(piece * m.size + offset, length);
    }

    method Cover(begin: nat, length: nat) returns (ok: bool, spans: seq<Span>)
      requires Shape() && length > 0
      ensures ok == (begin + length <= Total(m.lengths))
      ensures ok ==> Tiles(m.lengths, spans, begin, length)
    {
      hide CeilDiv, Lengths, Flat, Tiles;
      var global, remain := begin, length;
      spans := [];
      NoTiles(m.lengths, begin);
      var i := 0;
      while i < |m.lengths| && remain > 0
        invariant 0 <= i <= |m.lengths| && global + remain == begin + length && begin <= global && remain >= 0
        invariant Tiles(m.lengths, spans, begin, global - begin)
        invariant remain > 0 ==> global >= Offset(m.lengths, i)
        invariant global > begin ==> global <= Total(m.lengths)
      {
        var off, len := offsets[i], m.lengths[i];
        if global >= off + len {
          i := i + 1;
          continue;
        }
        if global + remain <= off {
          break;
        }
        var fileOff := global - off;
        var take := Min(remain, len - fileOff);
        TilesAppend(m.lengths, spans, begin, global - begin, Span(i, fileOff, take));
        OffsetInside(m.lengths, i + 1);
        spans := spans + [Span(i, fileOff, take)];
        global := global + take;
        remain := remain - take;
        i := i + 1;
      }
      ok := remain == 0;
    }

    method ReadBlock(piece: int, offset: Int32, length: Int32) returns (ok: bool, out: Blob)
      requires Shape()
      ensures ok == Accepts(m, piece, offset, length)
      ensures ok ==>
        var g := Start(m.size, piece) + offset; g + length <= |Flat(files)| && out == Flat(files)[g..g + length]
    {
      hide Offset, CeilDiv, PieceLength, Start, Lengths, Flat, Accepts, Tiles;
      out := [];
      var spans: seq<Span>;
      ok, spans := MapPiece(piece, offset, length);
      if !ok { return; }
      RequestParts(m, piece, offset, length);
      ReadsFlat(files, spans, Start(m.size, piece) + offset, length);
      out := ReadAll(spans, Start(m.size, piece) + offset, length);
    }

    method ReadAll(spans: seq<Span>, ghost g: nat, ghost n: nat) returns (out: Blob)
      requires Tiles(Lengths(files), spans, g, n)
      ensures out == ReadSpans(files, spans, g, n)
    {
      hide Offset, Lengths, Tiles, ReadSpans;
      out := [];
      ghost var done: nat := 0;
      assert spans[0..] == spans;
      for i := 0 to |spans|
        invariant done <= n && Tiles(Lengths(files), spans[i..], g + done, n - done)
        invariant out + ReadSpans(files, spans[i..], g + done, n - done) == ReadSpans(files, spans, g, n)
      {
        var s := spans[i];
        ghost var rest := spans[i..];
        assert rest != [] && rest[0] == s && rest[1..] == spans[i + 1..];
        ReadStep(files, rest, g + done, n - done);
        out := out + files[s.file][s.at..s.at + s.take];
        done := done + s.take;
      }
      ReadNothing(files, g + done, n - done);
      assert spans[|spans|..] == [];
    }

    method WriteBlock(piece: int, offset: Int32, data: Blob) returns (ok: bool)
      requires Shape() && |data| < TWO_31
      modifies this`files
      ensures Shape() && ok == Accepts(m, piece, offset, |data|)
      ensures ok ==>
        var g := Start(m.size, piece) + offset;
        g + |data| <= |old(Flat(files))| && Flat(files) == Patched(old(Flat(files)), g, data)
      ensures !ok ==> files == old(files)
    {
      hide Offset, CeilDiv, PieceLength, Start, Lengths, Flat, Accepts, Tiles, Patched;
      var spans: seq<Span>;
      ok, spans := MapPiece(piece, offset, |data|);
      if !ok { return; }
      RequestParts(m, piece, offset, |data|);
      WriteAll(spans, Start(m.size, piece) + offset, data);
    }

    method WriteAll(spans: seq<Span>, ghost g: nat, data: Blob)
      requires Tiles(Lengths(files), spans, g, |data|) && g + |data| <= |Flat(files)|
      modifies this`files
      ensures Lengths(files) == old(Lengths(files))
      ensures Flat(files) == Patched(old(Flat(files)), g, data)
    {
      hide Offset, Flat, Lengths, Patched, Tiles;
      var pos := 0;
      ghost var flat := Flat(files);
      assert spans[0..] == spans;
      PatchedNone(flat, g);
      assert data[..0] == [];
      for i := 0 to |spans|
        invariant 0 <= pos <= |data| && Lengths(files) == old(Lengths(files))
        invariant Tiles(Lengths(files), spans[i..], g + pos, |data| - pos)
        invariant Flat(files) == Patched(flat, g, data[..pos])
      {
        var s := spans[i];
        ghost var rest := spans[i..];
        assert rest != [] && rest[0] == s && rest[1..] == spans[i + 1..];
        TilesStep(Lengths(files), rest, g + pos, |data| - pos);
        TileFits(files, s);
        var part := data[pos..pos + s.take];
        FlatPatched(files, s.file, s.at, part);
        assert |data[..pos]| == pos;
        PatchedTwice(flat, g, data[..pos], part);
        assert data[..pos] + part == data[..pos + s.take];
        files := files[s.file := Patched(files[s.file], s.at, part)];
        pos := pos + s.take;
      }
      NoMoreTiles(Lengths(files), g + pos, |data| - pos);
      assert spans[|spans|..] == [];
      assert data[..pos] == data;
    }

    /** Stores a piece whose bytes have the expected digest. */
    method CommitPiece(piece: int, data: Blob) returns (ok: bool)
      requires Valid() && |data| < TWO_31
      modifies this
      ensures Valid()
      ensures ok == (0 <= piece < m.count && |data| == PieceLen(m, piece) && digest(data) == hashes[piece])
      ensures ok ==> have == old(have)[piece := true] && Start(m.size, piece) + |data| <= |old(Flat(files))|
                     && Flat(files) == Patched(old(Flat(files)), Start(m.size, piece), data)
      ensures !ok ==> files == old(files) && have == old(have)
    {
      hide Offset, CeilDiv, PieceLength, Start, Lengths, Flat, Patched, Verified, HeldBytes;
      if piece < 0 || piece >= m.count {
        return false;
      }
      if |data| != PieceLen(m, piece) {
        return false;
      }
      if digest(data) != hashes[piece] {
        return false;
      }
      PieceInside(Total(m.lengths), m.size, piece);
      CommitVerified(m, Flat(files), have, hashes, digest, piece, data);
      WholePieceAccepted(m, piece);
      ok := WriteBlock(piece, 0, data);
      if !have[piece] {
        HoldOne(Total(m.lengths), m.size, have, |have|, piece);
        have := have[piece := true];
        haveBytes := haveBytes + |data|;
      } else {
        assert have[piece := true] == have;
      }
    }

    /** Holds exactly the pieces whose stored bytes have the expected digest. */
    method CheckAll()
      requires Shape() && forall i :: 0 <= i < m.count ==> PieceLen(m, i) < TWO_31
      modifies this`have, this`haveBytes
      ensures Valid()
      ensures forall i :: 0 <= i < m.count ==> (have[i] <==> digest(PieceBytes(m, Flat(files), i)) == hashes[i])
    {
      hide Offset, CeilDiv, PieceLength, Start, Lengths, Flat, PieceBytes, HeldBytes;
      haveBytes := 0;
      NothingHeld(Total(m.lengths), m.size, have);
      for i := 0 to m.count
        invariant Shape() && haveBytes == HeldBytes(Total(m.lengths), m.size, have, i)
        invariant forall j :: 0 <= j < i ==> (have[j] <==> digest(PieceBytes(m, Flat(files), j)) == hashes[j])
      {
        ghost var before := have;
        var ok := CheckOne(i);
        have := have[i := ok];
        HeldOneMore(Total(m.lengths), m.size, before, have, i);
        if ok {
          haveBytes := haveBytes + PieceLen(m, i);
        }
      }
    }

    method CheckOne(i: nat) returns (ok: bool)
      requires Shape() && i < m.count && PieceLen(m, i) < TWO_31
      ensures ok <==> digest(PieceBytes(m, Flat(files), i)) == hashes[i]
    {
      hide Offset, CeilDiv, PieceLength, Start, Lengths, Flat, PieceBytes;
      WholePieceAccepted(m, i);
      var read, data := ReadBlock(i, 0, PieceLen(m, i));
      assert data == PieceBytes(m, Flat(files), i) by { PieceIsSlice(m, Flat(files), i); }
      ok := digest(data) == hashes[i];
    }
  }

  lemma NothingHeld(total: nat, size: nat, have: seq<bool>)
    ensures HeldBytes(total, size, have, 0) == 0
  {
  }

  lemma HeldOneMore(total: nat, size: nat, a: seq<bool>, b: seq<bool>, k: nat)
    requires |a| == |b| && k < |a| && forall i :: 0 <= i < k ==> a[i] == b[i]
    ensures HeldBytes(total, size, b, k + 1)
         == HeldBytes(total, size, a, k) + (if b[k] then PieceLength(total, size, |b|, k) else 0)
  {
    hide PieceLength;
    HeldBelow(total, size, a, b, k);
  }

  lemma PieceIsSlice(m: Layout, flat: Blob, piece: nat)
    requires GoodLayout(m) && piece < m.count && |flat| == Total(m.lengths)
    ensures Start(m.size, piece) + PieceLen(m, piece) <= |flat| && PieceLen(m, piece) > 0
    ensures PieceBytes(m, flat, piece) == flat[Start(m.size, piece)..Start(m.size, piece) + PieceLen(m, piece)]
  {
    PieceInside(Total(m.lengths), m.size, piece);
  }

  lemma {:induction false} HeldBelow(total: nat, size: nat, a: seq<bool>, b: seq<bool>, k: nat)
    requires |a| == |b| && k <= |a| && forall i :: 0 <= i < k ==> a[i] == b[i]
    ensures HeldBytes(total, size, a, k) == HeldBytes(total, size, b, k)
    decreases k
  {
    if k > 0 { HeldBelow(total, size, a, b, k - 1); }
  }

  lemma PatchedNone(s: Blob, at: nat)
    requires at <= |s|
    ensures Patched(s, at, []) == s
  {
  }

  lemma NoTiles(lengths: seq<nat>, g: nat)
    ensures Tiles(lengths, [], g, 0)
  {
  }

  lemma StartIs(size: nat, piece: nat)
    ensures Start(size, piece) == piece * size
  {
  }

  lemma RequestParts(m: Layout, piece: int, offset: Int32, length: Int32)
    requires Accepts(m, piece, offset, length)
    ensures 0 <= piece < m.count && offset >= 0 && length > 0
    ensures Start(m.size, piece) + offset + length <= Total(m.lengths)
  {
  }

  lemma {:induction false} OffsetInside(lengths: seq<nat>, i: nat)
    requires i <= |lengths|
    ensures Offset(lengths, i) <= Total(lengths)
    decreases |lengths| - i
  {
    if i < |lengths| { OffsetInside(lengths, i + 1); }
  }

  lemma WholePieceAccepted(m: Layout, piece: nat)
    requires GoodLayout(m) && piece < m.count && PieceLen(m, piece) < TWO_31
    ensures 0 < PieceLen(m, piece) && Accepts(m, piece, 0, PieceLen(m, piece))
  {
    hide Start, CeilDiv, Offset, ToInt32;
    PieceInside(Total(m.lengths), m.size, piece);
    Int32Kept(PieceLen(m, piece));
  }
}
