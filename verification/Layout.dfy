/**
 How the bytes of a torrent are laid out: the files are read as one stream, the
 stream is cut into pieces, and every piece into subpieces that each lie in one
 file.

 Files are named by their position in the descriptor. The length of a file past
 the last one reads as zero, and the generator reports whether it was read.
 */
module Layout {
  import opened Sequences

  /** A byte of a file. */
  datatype Position = Position(file: nat, offset: nat)

  datatype Subpiece = Subpiece(file: nat, offset: nat, len: nat)

  datatype Piece = Piece(index: nat, subpieces: seq<Subpiece>)

  /** Where the carving stands: the current file and how much of it is still unassigned. */
  datatype Cursor = Cursor(file: nat, rem: nat)

  /** What `Torrent::pieces` reads of a torrent: the file lengths, the piece length and the piece count. */
  datatype Descriptor = Descriptor(lengths: seq<nat>, pieceLength: nat, count: nat)

  function Total(lengths: seq<nat>): nat {
    if lengths == [] then 0 else lengths[0] + Total(lengths[1..])
  }

  function LengthAt(lengths: seq<nat>, k: nat): nat {
    if k < |lengths| then lengths[k] else 0
  }

  // ----- The stream of bytes -----

  function Span(file: nat, offset: nat, len: nat): (r: seq<Position>)
    ensures |r| == len
  {
    seq(len, k requires 0 <= k < len => Position(file, offset + k))
  }

  /** The bytes of the files from `file` on, in order. */
  function StreamFrom(lengths: seq<nat>, file: nat): seq<Position>
    decreases |lengths| - file
  {
    if file >= |lengths| then [] else Span(file, 0, lengths[file]) + StreamFrom(lengths, file + 1)
  }

  function Stream(lengths: seq<nat>): seq<Position> {
    StreamFrom(lengths, 0)
  }

  /** The bytes a list of subpieces stands for, in order. */
  function Covered(subs: seq<Subpiece>): seq<Position> {
    if subs == [] then []
    else Span(subs[0].file, subs[0].offset, subs[0].len) + Covered(subs[1..])
  }

  /** The bytes of all pieces, in order. */
  function CoveredAll(pieces: seq<Piece>): seq<Position> {
    if pieces == [] then [] else Covered(pieces[0].subpieces) + CoveredAll(pieces[1..])
  }

  /** The bytes still to be assigned. */
  function Remaining(lengths: seq<nat>, c: Cursor): seq<Position>
    requires c.rem <= LengthAt(lengths, c.file)
  {
    Span(c.file, LengthAt(lengths, c.file) - c.rem, c.rem) + StreamFrom(lengths, c.file + 1)
  }

  predicate ValidCursor(lengths: seq<nat>, c: Cursor) {
    c.rem <= LengthAt(lengths, c.file)
  }

  function OffsetOf(lengths: seq<nat>, c: Cursor): nat
    requires ValidCursor(lengths, c)
  {
    LengthAt(lengths, c.file) - c.rem
  }

  function NextFile(lengths: seq<nat>, c: Cursor): Cursor {
    Cursor(c.file + 1, LengthAt(lengths, c.file + 1))
  }

  // ----- Carving -----

  /** The piece length the layout and the downloader both use: the last piece takes what is left. */
  function PieceLength(length: nat, pieceLength: nat, count: nat, index: nat): int {
    if index == count - 1 then length - (count - 1) * pieceLength else pieceLength
  }

  /** The inner loop: fill `want` bytes, moving to the next file whenever the current one fits entirely. */
  function Fill(lengths: seq<nat>, c: Cursor, want: nat): (r: (seq<Subpiece>, Cursor))
    requires ValidCursor(lengths, c)
    ensures ValidCursor(lengths, r.1)
    decreases |lengths| - c.file
  {
    if want == 0 || c.file >= |lengths| then ([], c)
    else if c.rem <= want then
      var (rest, end) := Fill(lengths, NextFile(lengths, c), want - c.rem);
      ([Subpiece(c.file, OffsetOf(lengths, c), c.rem)] + rest, end)
    else
      ([Subpiece(c.file, OffsetOf(lengths, c), want)], Cursor(c.file, c.rem - want))
  }

  /** One piece: a single subpiece if the current file holds it, otherwise the inner loop. */
  function Carve(lengths: seq<nat>, c: Cursor, want: nat): (r: (seq<Subpiece>, Cursor))
    requires ValidCursor(lengths, c)
    ensures ValidCursor(lengths, r.1)
  {
    if c.rem < want then Fill(lengths, c, want)
    else ([Subpiece(c.file, OffsetOf(lengths, c), want)], Cursor(c.file, c.rem - want))
  }

  function Start(lengths: seq<nat>): (c: Cursor)
    ensures ValidCursor(lengths, c)
  {
    Cursor(0, LengthAt(lengths, 0))
  }

  /** The piece count is the ceiling of the total length over the piece length. */
  predicate Fits(t: Descriptor) {
    t.pieceLength > 0 && (t.count - 1) * t.pieceLength < Total(t.lengths) <= t.count * t.pieceLength
  }

  /** How many bytes of the torrent come before piece `index`. */
  function Before(t: Descriptor, index: nat): nat {
    if index < t.count then index * t.pieceLength else Total(t.lengths)
  }

  function WantAt(t: Descriptor, index: nat): (want: nat)
    requires Fits(t) && index < t.count
    ensures 0 < want <= t.pieceLength
    ensures Before(t, index) + want == Before(t, index + 1)
  {
    assert t.count * t.pieceLength == (t.count - 1) * t.pieceLength + t.pieceLength;
    assert (index + 1) * t.pieceLength == index * t.pieceLength + t.pieceLength;
    PieceLength(Total(t.lengths), t.pieceLength, t.count, index)
  }

  /** The pieces from `index` on. */
  function PiecesFrom(t: Descriptor, index: nat, c: Cursor): (r: seq<Piece>)
    requires Fits(t) && index <= t.count && ValidCursor(t.lengths, c)
    ensures |r| == t.count - index
    decreases t.count - index
  {
    if index == t.count then []
    else
      var (subs, next) := Carve(t.lengths, c, WantAt(t, index));
      [Piece(index, subs)] + PiecesFrom(t, index + 1, next)
  }

  function Pieces(t: Descriptor): (r: seq<Piece>)
    requires Fits(t)
    ensures |r| == t.count
  {
    PiecesFrom(t, 0, Start(t.lengths))
  }

  // ----- The stream holds every byte of every file exactly once -----

  lemma {:induction false} StreamLength(lengths: seq<nat>, file: nat)
    requires file <= |lengths|
    ensures |StreamFrom(lengths, file)| == Total(lengths[file..])
    decreases |lengths| - file
  {
    if file < |lengths| {
      StreamLength(lengths, file + 1);
      assert lengths[file..][1..] == lengths[file + 1..];
    }
  }

  /** The place of a byte in the stream: the lengths of the files before its own, plus its offset. */
  lemma {:induction false} StreamAt(lengths: seq<nat>, file: nat, p: Position) returns (at: nat)
    requires file <= p.file < |lengths| && p.offset < lengths[p.file]
    ensures at < |StreamFrom(lengths, file)| && StreamFrom(lengths, file)[at] == p
    decreases |lengths| - file
  {
    if p.file == file {
      at := p.offset;
    } else {
      at := StreamAt(lengths, file + 1, p);
      at := at + lengths[file];
    }
  }

  /** The stream holds only bytes of the files, strictly increasing in file and offset. */
  lemma {:induction false} StreamOrdered(lengths: seq<nat>, file: nat)
    ensures forall k | 0 <= k < |StreamFrom(lengths, file)| :: InFile(lengths, file, StreamFrom(lengths, file)[k])
    ensures forall i, j | 0 <= i < j < |StreamFrom(lengths, file)| ::
      Precedes(StreamFrom(lengths, file)[i], StreamFrom(lengths, file)[j])
    decreases |lengths| - file
  {
    if file < |lengths| {
      StreamOrdered(lengths, file + 1);
      var s, tail, n := StreamFrom(lengths, file), StreamFrom(lengths, file + 1), lengths[file];
      forall k | 0 <= k < |s|
        ensures s[k] == (if k < n then Position(file, k) else tail[k - n]) && InFile(lengths, file, s[k])
      {
        assert k >= n ==> InFile(lengths, file + 1, tail[k - n]);
      }
      forall i, j | 0 <= i < j < |s|
        ensures Precedes(s[i], s[j])
      {
        if i >= n {
          assert Precedes(tail[i - n], tail[j - n]);
        }
      }
    }
  }

  predicate InFile(lengths: seq<nat>, file: nat, p: Position) {
    file <= p.file < |lengths| && p.offset < lengths[p.file]
  }

  predicate Precedes(p: Position, q: Position) {
    p.file < q.file || (p.file == q.file && p.offset < q.offset)
  }

  // ----- Carving takes bytes off the front of what remains -----

  lemma {:induction false} SpanSplit(file: nat, offset: nat, len: nat, k: nat)
    requires k <= len
    ensures Span(file, offset, len) == Span(file, offset, k) + Span(file, offset + k, len - k)
  {
  }

  lemma {:induction false} RemainingAfterFile(lengths: seq<nat>, c: Cursor)
    requires ValidCursor(lengths, c) && c.file < |lengths|
    ensures Remaining(lengths, c) ==
            Span(c.file, OffsetOf(lengths, c), c.rem) + Remaining(lengths, NextFile(lengths, c))
  {
    var next := NextFile(lengths, c);
    assert Remaining(lengths, next) == StreamFrom(lengths, c.file + 1);
  }

  lemma {:induction false} RemainingAfterPart(lengths: seq<nat>, c: Cursor, k: nat)
    requires ValidCursor(lengths, c) && k <= c.rem
    ensures Remaining(lengths, c) ==
            Span(c.file, OffsetOf(lengths, c), k) + Remaining(lengths, Cursor(c.file, c.rem - k))
  {
    SpanSplit(c.file, OffsetOf(lengths, c), c.rem, k);
  }

  lemma {:induction false} CoveredCons(sub: Subpiece, rest: seq<Subpiece>)
    ensures Covered([sub] + rest) == Span(sub.file, sub.offset, sub.len) + Covered(rest)
  {
    assert ([sub] + rest)[1..] == rest;
  }

  lemma {:induction false} FillNext(lengths: seq<nat>, c: Cursor, want: nat)
    requires ValidCursor(lengths, c) && c.file < |lengths| && 0 < want && c.rem <= want
    ensures var first := Subpiece(c.file, OffsetOf(lengths, c), c.rem);
      var (rest, end) := Fill(lengths, NextFile(lengths, c), want - c.rem);
      Fill(lengths, c, want) == ([first] + rest, end) &&
      Covered([first] + rest) == Span(c.file, OffsetOf(lengths, c), c.rem) + Covered(rest)
  {
    var (rest, end) := Fill(lengths, NextFile(lengths, c), want - c.rem);
    CoveredCons(Subpiece(c.file, OffsetOf(lengths, c), c.rem), rest);
  }

  /**
   The inner loop assigns exactly the next `want` bytes, and never reads a file past
   the last before they are assigned.
   */
  lemma {:induction false} FillTakes(lengths: seq<nat>, c: Cursor, want: nat)
    requires ValidCursor(lengths, c) && want <= |Remaining(lengths, c)|
    ensures var (subs, next) := Fill(lengths, c, want);
      |Covered(subs)| == want && Remaining(lengths, c) == Covered(subs) + Remaining(lengths, next)
    decreases |lengths| - c.file
  {
    if want > 0 && c.file < |lengths| {
      if c.rem <= want {
        var next := NextFile(lengths, c);
        RemainingAfterFile(lengths, c);
        FillTakes(lengths, next, want - c.rem);
        FillNext(lengths, c, want);
        var (rest, end) := Fill(lengths, next, want - c.rem);
        Associative(Span(c.file, OffsetOf(lengths, c), c.rem), Covered(rest), Remaining(lengths, end));
      } else {
        RemainingAfterPart(lengths, c, want);
        SingleCovered(Subpiece(c.file, OffsetOf(lengths, c), want));
      }
    }
  }

  lemma {:induction false} SingleCovered(sub: Subpiece)
    ensures Covered([sub]) == Span(sub.file, sub.offset, sub.len)
  {
    assert [sub][1..] == [];
  }

  lemma {:induction false} CarveTakes(lengths: seq<nat>, c: Cursor, want: nat)
    requires ValidCursor(lengths, c) && want <= |Remaining(lengths, c)|
    ensures var (subs, next) := Carve(lengths, c, want);
      |Covered(subs)| == want && Remaining(lengths, c) == Covered(subs) + Remaining(lengths, next)
  {
    if c.rem < want {
      FillTakes(lengths, c, want);
    } else {
      RemainingAfterPart(lengths, c, want);
      SingleCovered(Subpiece(c.file, OffsetOf(lengths, c), want));
    }
  }

  // ----- Every subpiece lies in its file -----

  predicate InBounds(lengths: seq<nat>, subs: seq<Subpiece>) {
    forall k | 0 <= k < |subs| :: subs[k].file < |lengths| && subs[k].offset + subs[k].len <= lengths[subs[k].file]
  }

  lemma {:induction false} FillInBounds(lengths: seq<nat>, c: Cursor, want: nat)
    requires ValidCursor(lengths, c)
    ensures InBounds(lengths, Fill(lengths, c, want).0)
    decreases |lengths| - c.file
  {
    if want > 0 && c.file < |lengths| && c.rem <= want {
      FillInBounds(lengths, NextFile(lengths, c), want - c.rem);
    }
  }

  lemma {:induction false} CarveInBounds(lengths: seq<nat>, c: Cursor, want: nat)
    requires ValidCursor(lengths, c) && want > 0
    ensures InBounds(lengths, Carve(lengths, c, want).0)
  {
    if c.rem < want {
      FillInBounds(lengths, c, want);
    }
  }

  // ----- The partition -----

  lemma {:induction false} BeforeMonotone(t: Descriptor, i: nat, j: nat)
    requires Fits(t) && i <= j <= t.count
    ensures Before(t, i) <= Before(t, j)
    decreases j - i
  {
    if i < j {
      var want := WantAt(t, i);
      BeforeMonotone(t, i + 1, j);
    }
  }

  lemma {:induction false} BeforeBounds(t: Descriptor, k: nat)
    requires Fits(t) && k <= t.count
    ensures Before(t, k) <= Before(t, t.count) == Total(t.lengths) == |Stream(t.lengths)|
    ensures Before(t, 0) == 0
  {
    BeforeMonotone(t, k, t.count);
    StreamLength(t.lengths, 0);
    assert t.lengths[0..] == t.lengths;
  }

  /** Piece `k` stands for the bytes of the stream from `k` piece lengths on, up to the next piece or the end. */
  predicate PieceExact(t: Descriptor, piece: Piece, k: nat)
    requires Fits(t) && k < t.count
  {
    && piece.index == k
    && Before(t, k) <= Before(t, k + 1) <= |Stream(t.lengths)|
    && Covered(piece.subpieces) == Stream(t.lengths)[Before(t, k)..Before(t, k + 1)]
    && InBounds(t.lengths, piece.subpieces)
  }

  /** The cursor stands where piece `index` starts. */
  predicate Standing(t: Descriptor, index: nat, c: Cursor) {
    && ValidCursor(t.lengths, c)
    && Before(t, index) <= |Stream(t.lengths)|
    && Remaining(t.lengths, c) == Stream(t.lengths)[Before(t, index)..]
  }

  lemma {:induction false} StandingStart(t: Descriptor)
    requires Fits(t)
    ensures Standing(t, 0, Start(t.lengths))
  {
    BeforeBounds(t, 0);
    assert Remaining(t.lengths, Start(t.lengths)) == Stream(t.lengths);
  }

  /** Carving one piece is exact and leaves the cursor where the next piece starts. */
  lemma {:induction false} CarveExact(t: Descriptor, index: nat, c: Cursor)
    requires Fits(t) && index < t.count && Standing(t, index, c)
    ensures var (subs, next) := Carve(t.lengths, c, WantAt(t, index));
      PieceExact(t, Piece(index, subs), index) && Standing(t, index + 1, next)
  {
    var s, want := Stream(t.lengths), WantAt(t, index);
    var from, to := Before(t, index), Before(t, index + 1);
    BeforeBounds(t, index + 1);
    CarveTakes(t.lengths, c, want);
    CarveInBounds(t.lengths, c, want);
    var (subs, next) := Carve(t.lengths, c, want);
    assert s[from..] == Covered(subs) + Remaining(t.lengths, next);
    assert Covered(subs) == s[from..][..want] == s[from..to];
    assert Remaining(t.lengths, next) == s[from..][want..] == s[to..];
  }

  lemma {:induction false} PiecesFromExact(t: Descriptor, index: nat, c: Cursor, k: nat)
    requires Fits(t) && index <= k < t.count && Standing(t, index, c)
    ensures PieceExact(t, PiecesFrom(t, index, c)[k - index], k)
    decreases k - index
  {
    CarveExact(t, index, c);
    if index < k {
      var (subs, next) := Carve(t.lengths, c, WantAt(t, index));
      PiecesFromExact(t, index + 1, next, k);
    }
  }

  /** Every piece is exactly its slice of the stream, inside the files. */
  lemma {:induction false} PiecesExact(t: Descriptor, k: nat)
    requires Fits(t) && k < t.count
    ensures PieceExact(t, Pieces(t)[k], k)
  {
    StandingStart(t);
    PiecesFromExact(t, 0, Start(t.lengths), k);
  }

  lemma {:induction false} CoveredAllAppend(pieces: seq<Piece>, p: Piece)
    ensures CoveredAll(pieces + [p]) == CoveredAll(pieces) + Covered(p.subpieces)
  {
    if pieces == [] {
      assert (pieces + [p])[1..] == [];
    } else {
      assert (pieces + [p])[1..] == pieces[1..] + [p];
      CoveredAllAppend(pieces[1..], p);
    }
  }

  lemma {:induction false} Slices(s: seq<Position>, mid: nat, to: nat)
    requires mid <= to <= |s|
    ensures s[..mid] + s[mid..to] == s[..to]
  {
  }

  lemma {:induction false} CoveredNext(t: Descriptor, k: nat)
    requires Fits(t) && k < t.count && Before(t, k) <= |Stream(t.lengths)|
    requires CoveredAll(Pieces(t)[..k]) == Stream(t.lengths)[..Before(t, k)]
    ensures Before(t, k + 1) <= |Stream(t.lengths)|
    ensures CoveredAll(Pieces(t)[..k + 1]) == Stream(t.lengths)[..Before(t, k + 1)]
  {
    var pieces := Pieces(t);
    PiecesExact(t, k);
    assert pieces[..k + 1] == pieces[..k] + [pieces[k]];
    CoveredAllAppend(pieces[..k], pieces[k]);
    Slices(Stream(t.lengths), Before(t, k), Before(t, k + 1));
  }

  lemma {:induction false} CoveredPrefix(t: Descriptor, k: nat)
    requires Fits(t) && k <= t.count
    ensures Before(t, k) <= |Stream(t.lengths)| && CoveredAll(Pieces(t)[..k]) == Stream(t.lengths)[..Before(t, k)]
  {
    if k == 0 {
      BeforeBounds(t, 0);
    } else {
      CoveredPrefix(t, k - 1);
      CoveredNext(t, k - 1);
    }
  }

  /** The subpieces of all pieces, in order, are all bytes of all files, in file order. */
  lemma {:induction false} Partition(t: Descriptor)
    requires Fits(t)
    ensures CoveredAll(Pieces(t)) == Stream(t.lengths)
  {
    CoveredPrefix(t, t.count);
    BeforeBounds(t, t.count);
    assert Pieces(t)[..t.count] == Pieces(t);
  }

  /** The byte at place `at` of piece `k`. */
  predicate Holds(t: Descriptor, k: nat, at: nat, p: Position)
    requires Fits(t)
  {
    k < t.count && at < |Covered(Pieces(t)[k].subpieces)| && Covered(Pieces(t)[k].subpieces)[at] == p
  }

  /** A place of a piece is a place of the stream. */
  lemma {:induction false} PlaceInStream(t: Descriptor, k: nat, at: nat, p: Position)
    requires Fits(t) && Holds(t, k, at, p)
    ensures Before(t, k) + at < |Stream(t.lengths)| && Stream(t.lengths)[Before(t, k) + at] == p
    ensures Before(t, k) + at < Before(t, k + 1)
  {
    PiecesExact(t, k);
  }

  lemma {:induction false} OnePlace(t: Descriptor, i: nat, j: nat, k: nat, at: nat)
    requires Fits(t) && i < t.count && k < t.count && Before(t, i) + j == Before(t, k) + at
    requires Before(t, i) + j < Before(t, i + 1) && Before(t, k) + at < Before(t, k + 1)
    ensures i == k && j == at
  {
    if i < k {
      BeforeMonotone(t, i + 1, k);
    } else if k < i {
      BeforeMonotone(t, k + 1, i);
    }
  }

  /** Each byte of each file belongs to exactly one place of exactly one piece. */
  lemma {:induction false} EveryByteOnce(t: Descriptor, p: Position) returns (k: nat, at: nat)
    requires Fits(t) && p.file < |t.lengths| && p.offset < t.lengths[p.file]
    ensures Holds(t, k, at, p)
    ensures forall i: nat, j: nat | Holds(t, i, j, p) :: i == k && j == at
  {
    BeforeBounds(t, 0);
    StreamOrdered(t.lengths, 0);
    var g := StreamAt(t.lengths, 0, p);
    k := PieceOf(t, g);
    PiecesExact(t, k);
    at := g - Before(t, k);
    forall i: nat, j: nat | Holds(t, i, j, p)
      ensures i == k && j == at
    {
      PlaceInStream(t, i, j, p);
      OnePlace(t, i, j, k, at);
    }
  }

  /** The piece that holds the byte at place `g` of the stream. */
  lemma {:induction false} PieceOf(t: Descriptor, g: nat) returns (k: nat)
    requires Fits(t) && g < Total(t.lengths)
    ensures k < t.count && Before(t, k) <= g < Before(t, k + 1)
  {
    BeforeBounds(t, 0);
    k := 0;
    while g >= Before(t, k + 1)
      invariant k < t.count && Before(t, k) <= g
      decreases t.count - k
    {
      k := k + 1;
    }
  }

  // ----- Where the carving stands -----

  /** The cursor before piece `k`. */
  function CursorAt(t: Descriptor, k: nat): (c: Cursor)
    requires Fits(t) && k <= t.count
    ensures ValidCursor(t.lengths, c)
  {
    if k == 0 then Start(t.lengths) else Carve(t.lengths, CursorAt(t, k - 1), WantAt(t, k - 1)).1
  }

  lemma {:induction false} CursorStands(t: Descriptor, k: nat)
    requires Fits(t) && k <= t.count
    ensures Standing(t, k, CursorAt(t, k))
  {
    if k == 0 {
      StandingStart(t);
    } else {
      CursorStands(t, k - 1);
      CarveExact(t, k - 1, CursorAt(t, k - 1));
    }
  }

  /** What is carved at the cursor before piece `k`. */
  function PieceAt(t: Descriptor, k: nat): Piece
    requires Fits(t) && k < t.count
  {
    Piece(k, Carve(t.lengths, CursorAt(t, k), WantAt(t, k)).0)
  }

  lemma {:induction false} PieceFromCursor(t: Descriptor, index: nat, c: Cursor, k: nat)
    requires Fits(t) && index <= k < t.count && c == CursorAt(t, index)
    ensures PiecesFrom(t, index, c)[k - index] == PieceAt(t, k)
    decreases k - index
  {
    if index < k {
      var (subs, next) := Carve(t.lengths, c, WantAt(t, index));
      PieceFromCursor(t, index + 1, next, k);
    }
  }

  lemma {:induction false} PieceAtCursor(t: Descriptor, k: nat)
    requires Fits(t) && k < t.count
    ensures Pieces(t)[k] == PieceAt(t, k)
  {
    PieceFromCursor(t, 0, Start(t.lengths), k);
  }

  // ----- When a file past the last one is read -----

  lemma {:induction false} NothingLeft(lengths: seq<nat>, file: nat)
    requires file < |lengths| && StreamFrom(lengths, file) == []
    ensures lengths[|lengths| - 1] == 0
    decreases |lengths| - file
  {
    assert |Span(file, 0, lengths[file]) + StreamFrom(lengths, file + 1)| == 0;
    if file + 1 < |lengths| {
      NothingLeft(lengths, file + 1);
    }
  }

  lemma {:induction false} LeftAfterFile(lengths: seq<nat>, c: Cursor)
    requires ValidCursor(lengths, c) && c.file < |lengths|
    ensures |Remaining(lengths, c)| == c.rem + |Remaining(lengths, NextFile(lengths, c))|
    ensures c.file + 1 < |lengths| ==> Remaining(lengths, NextFile(lengths, c)) == StreamFrom(lengths, c.file + 1)
    ensures c.file + 1 >= |lengths| ==> Remaining(lengths, NextFile(lengths, c)) == []
  {
    RemainingAfterFile(lengths, c);
  }

  /** The inner loop that takes all that is left passes the last file exactly when that file is not empty. */
  lemma {:induction false} FillToEnd(lengths: seq<nat>, c: Cursor, want: nat)
    requires ValidCursor(lengths, c) && c.file < |lengths| && 0 < want == |Remaining(lengths, c)|
    ensures Fill(lengths, c, want).1.file <= |lengths|
    ensures Fill(lengths, c, want).1.file == |lengths| <==> lengths[|lengths| - 1] > 0
    decreases |lengths| - c.file
  {
    LeftAfterFile(lengths, c);
    FillNext(lengths, c, want);
    if c.rem < want {
      FillToEnd(lengths, NextFile(lengths, c), want - c.rem);
    } else if c.file + 1 < |lengths| {
      NothingLeft(lengths, c.file + 1);
    }
  }

  lemma {:induction false} OutsideEmpty(lengths: seq<nat>, c: Cursor)
    requires ValidCursor(lengths, c)
    ensures c.file >= |lengths| ==> Remaining(lengths, c) == []
  {
  }

  lemma {:induction false} CursorLeaves(t: Descriptor, k: nat)
    requires Fits(t) && k <= t.count
    ensures |Remaining(t.lengths, CursorAt(t, k))| == Total(t.lengths) - Before(t, k)
  {
    CursorStands(t, k);
    BeforeBounds(t, k);
  }

  lemma {:induction false} CursorInside(t: Descriptor, k: nat)
    requires Fits(t) && k < t.count
    ensures CursorAt(t, k).file < |t.lengths|
    ensures WantAt(t, k) <= |Remaining(t.lengths, CursorAt(t, k))|
    ensures k == t.count - 1 ==> WantAt(t, k) == |Remaining(t.lengths, CursorAt(t, k))|
  {
    CursorLeaves(t, k);
    BeforeBounds(t, k + 1);
    var want := WantAt(t, k);
    OutsideEmpty(t.lengths, CursorAt(t, k));
  }

  /** Carving asks for a file that is not there: the cursor leaves the list of files. */
  predicate LeavesFiles(t: Descriptor)
    requires Fits(t)
  {
    exists k :: 0 <= k <= t.count && CursorAt(t, k).file >= |t.lengths|
  }

  /** There is no file, or the last piece does not fit the file it starts in and the last file is not empty. */
  predicate ReadsPast(t: Descriptor)
    requires Fits(t)
  {
    || t.lengths == []
    || (t.count > 0 && t.lengths[|t.lengths| - 1] > 0 && CursorAt(t, t.count - 1).rem < WantAt(t, t.count - 1))
  }

  lemma {:induction false} LastCursor(t: Descriptor)
    requires Fits(t) && t.count > 0
    ensures t.lengths != []
    ensures CursorAt(t, t.count).file >= |t.lengths| <==> ReadsPast(t)
  {
    var c, want := CursorAt(t, t.count - 1), WantAt(t, t.count - 1);
    CursorInside(t, t.count - 1);
    if c.rem < want {
      FillToEnd(t.lengths, c, want);
    }
  }

  /** Exactly when `Torrent::pieces` reads the length of a file that does not exist. */
  lemma {:induction false} LeavesFilesExact(t: Descriptor)
    requires Fits(t)
    ensures LeavesFiles(t) <==> ReadsPast(t)
  {
    if t.count > 0 {
      LastCursor(t);
    }
    if k: nat :| k <= t.count && CursorAt(t, k).file >= |t.lengths| {
      if k < t.count {
        CursorInside(t, k);
      }
    }
    assert ReadsPast(t) ==> CursorAt(t, t.count).file >= |t.lengths|;
  }

  lemma {:induction false} LastFileLast(lengths: seq<nat>, file: nat)
    requires file < |lengths|
    ensures |StreamFrom(lengths, file)| >= lengths[|lengths| - 1]
    decreases |lengths| - file
  {
    if file + 1 < |lengths| {
      LastFileLast(lengths, file + 1);
    }
  }

  /** A cursor in the last file has at most that file ahead, one in an earlier file at least that. */
  lemma {:induction false} AheadOfCursor(lengths: seq<nat>, c: Cursor)
    requires ValidCursor(lengths, c) && c.file < |lengths|
    ensures c.file == |lengths| - 1 ==> |Remaining(lengths, c)| == c.rem <= lengths[|lengths| - 1]
    ensures c.file < |lengths| - 1 ==> |Remaining(lengths, c)| >= c.rem + lengths[|lengths| - 1]
  {
    LeftAfterFile(lengths, c);
    if c.file < |lengths| - 1 {
      LastFileLast(lengths, c.file + 1);
    }
  }

  /** With a last file that is not empty, the read happens exactly when the last piece starts out in an earlier one. */
  lemma {:induction false} ReadsPastFile(t: Descriptor)
    requires Fits(t) && t.count > 0
    ensures t.lengths != []
    ensures t.lengths[|t.lengths| - 1] > 0 ==>
      (ReadsPast(t) <==> CursorAt(t, t.count - 1).file < |t.lengths| - 1)
  {
    CursorInside(t, t.count - 1);
    AheadOfCursor(t.lengths, CursorAt(t, t.count - 1));
  }

  /**
   What the descriptor alone tells, when the last file is not empty: a last piece
   that starts before the last file does causes the read, and one that starts
   strictly inside it does not.
   */
  lemma {:induction false} ReadsPastByLengths(t: Descriptor)
    requires Fits(t) && t.count > 0
    ensures t.lengths != []
    ensures var last, start := t.lengths[|t.lengths| - 1], Before(t, t.count - 1);
      && start == (t.count - 1) * t.pieceLength
      && (0 < last && start < Total(t.lengths) - last ==> ReadsPast(t))
      && (0 < last && start > Total(t.lengths) - last ==> !ReadsPast(t))
  {
    var c := CursorAt(t, t.count - 1);
    ReadsPastFile(t);
    CursorInside(t, t.count - 1);
    CursorLeaves(t, t.count - 1);
    AheadOfCursor(t.lengths, c);
  }

  /** Two files of one piece each: the last piece reads the length of a third. */
  lemma {:induction false} TwoFullFiles()
    ensures var t := Descriptor([4, 4], 4, 2);
      Fits(t) && ReadsPast(t) && CursorAt(t, 2) == Cursor(2, 0)
  {
    var t := Descriptor([4, 4], 4, 2);
    assert t.lengths[1..] == [4] && t.lengths[1..][1..] == [];
    assert Total(t.lengths) == 8;
    assert CursorAt(t, 0) == Cursor(0, 4);
    assert CursorAt(t, 1) == Cursor(0, 0);
    assert Fill(t.lengths, Cursor(2, 0), 0).1 == Cursor(2, 0);
    assert Fill(t.lengths, Cursor(1, 4), 4).1 == Cursor(2, 0);
    assert Fill(t.lengths, Cursor(0, 0), 4).1 == Cursor(2, 0);
  }

  // ----- When a subpiece is empty -----

  /** How many bytes lie between the cursor and the start of file `f`. */
  function Ahead(lengths: seq<nat>, c: Cursor, f: nat): nat
    decreases f - c.file
  {
    if f <= c.file then 0 else c.rem + Ahead(lengths, NextFile(lengths, c), f)
  }

  /** A file, or the rest of the current one, is empty and comes before `want` bytes are found. */
  predicate MeetsEmpty(lengths: seq<nat>, c: Cursor, want: nat, f: nat) {
    c.file <= f < |lengths| && (if f == c.file then c.rem else lengths[f]) == 0 && Ahead(lengths, c, f) < want
  }

  predicate HasEmpty(subs: seq<Subpiece>) {
    exists i :: 0 <= i < |subs| && subs[i].len == 0
  }

  lemma {:induction false} HasEmptyCons(sub: Subpiece, rest: seq<Subpiece>)
    ensures HasEmpty([sub] + rest) <==> sub.len == 0 || HasEmpty(rest)
  {
    var subs := [sub] + rest;
    if HasEmpty(rest) {
      var i :| 0 <= i < |rest| && rest[i].len == 0;
      assert subs[i + 1].len == 0;
    }
    assert subs[0] == sub;
  }

  lemma {:induction false} MeetsNext(lengths: seq<nat>, c: Cursor, want: nat, f: nat)
    requires c.rem <= want
    ensures MeetsEmpty(lengths, c, want, f) <==>
            (f == c.file && f < |lengths| && c.rem == 0 && want > 0) ||
            MeetsEmpty(lengths, NextFile(lengths, c), want - c.rem, f)
  {
  }

  lemma {:induction false} MeetsSome(lengths: seq<nat>, c: Cursor, want: nat, next: Cursor, left: nat)
    requires c.rem <= want && 0 < want && c.file < |lengths|
    requires next == NextFile(lengths, c) && left == want - c.rem
    ensures (exists f :: MeetsEmpty(lengths, c, want, f)) <==>
            c.rem == 0 || exists f :: MeetsEmpty(lengths, next, left, f)
  {
    MeetsNext(lengths, c, want, c.file);
    if f: nat :| MeetsEmpty(lengths, c, want, f) {
      MeetsNext(lengths, c, want, f);
    }
    if f: nat :| MeetsEmpty(lengths, next, left, f) {
      MeetsNext(lengths, c, want, f);
    }
  }

  lemma {:induction false} FillEmpty(lengths: seq<nat>, c: Cursor, want: nat)
    requires ValidCursor(lengths, c) && want <= |Remaining(lengths, c)|
    ensures HasEmpty(Fill(lengths, c, want).0) <==> exists f :: MeetsEmpty(lengths, c, want, f)
    decreases |lengths| - c.file
  {
    if want > 0 && c.file < |lengths| {
      if c.rem <= want {
        var next := NextFile(lengths, c);
        RemainingAfterFile(lengths, c);
        FillEmpty(lengths, next, want - c.rem);
        HasEmptyCons(Subpiece(c.file, OffsetOf(lengths, c), c.rem), Fill(lengths, next, want - c.rem).0);
        MeetsSome(lengths, c, want, next, want - c.rem);
      } else {
        forall f: nat
          ensures !MeetsEmpty(lengths, c, want, f)
        {
        }
      }
    }
  }

  /**
   Exactly when a piece gets an empty subpiece: an empty file, or an exhausted one,
   comes before its bytes are found.
   */
  lemma {:induction false} EmptySubpieceExact(t: Descriptor, k: nat)
    requires Fits(t) && k < t.count
    ensures HasEmpty(Pieces(t)[k].subpieces) <==> exists f :: MeetsEmpty(t.lengths, CursorAt(t, k), WantAt(t, k), f)
  {
    var c, want := CursorAt(t, k), WantAt(t, k);
    PieceAtCursor(t, k);
    CursorInside(t, k);
    if c.rem < want {
      FillEmpty(t.lengths, c, want);
    } else {
      assert Pieces(t)[k].subpieces[0].len == want;
      forall f: nat
        ensures !MeetsEmpty(t.lengths, c, want, f)
      {
      }
    }
  }

  // ----- The generator -----

  /** Subpieces already emitted, followed by what the inner loop still emits. */
  function Resume(done: seq<Subpiece>, rest: (seq<Subpiece>, Cursor)): (seq<Subpiece>, Cursor) {
    (done + rest.0, rest.1)
  }

  lemma {:induction false} ResumeStep(done: seq<Subpiece>, sub: Subpiece, rest: (seq<Subpiece>, Cursor))
    ensures Resume(done, ([sub] + rest.0, rest.1)) == Resume(done + [sub], rest)
    ensures Resume([], rest) == rest
    ensures Resume(done, ([sub], rest.1)) == (done + [sub], rest.1)
    ensures Resume(done, ([], rest.1)) == (done, rest.1)
  {
    assert done + ([sub] + rest.0) == (done + [sub]) + rest.0;
    assert [] + rest.0 == rest.0;
    assert done + [] == done;
  }

  lemma {:induction false} CarveStep(t: Descriptor, index: nat, c: Cursor, done: seq<Piece>)
    requires Fits(t) && index < t.count && ValidCursor(t.lengths, c)
    ensures var (subs, next) := Carve(t.lengths, c, WantAt(t, index));
      done + PiecesFrom(t, index, c) == (done + [Piece(index, subs)]) + PiecesFrom(t, index + 1, next)
  {
    var (subs, next) := Carve(t.lengths, c, WantAt(t, index));
    assert done + ([Piece(index, subs)] + PiecesFrom(t, index + 1, next))
        == (done + [Piece(index, subs)]) + PiecesFrom(t, index + 1, next);
  }

  /**
   The inner loop of `Torrent::pieces`, entered when the current file cannot hold
   the piece; `past` tells that it read the length of a file that is not there.
   */
  method FillPiece(lengths: seq<nat>, file: nat, rem: nat, pieceLength: nat)
    returns (subpieces: seq<Subpiece>, curFile: nat, curFileRemSize: nat, past: bool)
    requires ValidCursor(lengths, Cursor(file, rem)) && file < |lengths|
    requires pieceLength <= |Remaining(lengths, Cursor(file, rem))|
    ensures (subpieces, Cursor(curFile, curFileRemSize)) == Fill(lengths, Cursor(file, rem), pieceLength)
    ensures past <==> curFile >= |lengths|
    ensures past <==>
            && rem <= pieceLength == |Remaining(lengths, Cursor(file, rem))|
            && 0 < pieceLength && lengths[|lengths| - 1] > 0
  {
    subpieces := [];
    curFile, curFileRemSize := file, rem;
    past := false;
    var curFileTotSize := LengthAt(lengths, curFile);
    var pieceRemLen: nat := pieceLength;
    ghost var whole := Fill(lengths, Cursor(file, rem), pieceLength);
    ghost var bytes := |Remaining(lengths, Cursor(file, rem))|;
    ResumeStep([], Subpiece(0, 0, 0), whole);
    while pieceRemLen > 0
      invariant curFileTotSize == LengthAt(lengths, curFile) && curFileRemSize <= curFileTotSize
      invariant |Remaining(lengths, Cursor(curFile, curFileRemSize))| - pieceRemLen == bytes - pieceLength
      invariant whole == Resume(subpieces, Fill(lengths, Cursor(curFile, curFileRemSize), pieceRemLen))
      invariant past <==> curFile >= |lengths|
      decreases |lengths| - curFile, pieceRemLen
    {
      ghost var c := Cursor(curFile, curFileRemSize);
      assert curFile < |lengths|;
      var offset := curFileTotSize - curFileRemSize;
      if curFileRemSize <= pieceRemLen {
        RemainingAfterFile(lengths, c);
        ResumeStep(subpieces, Subpiece(curFile, offset, curFileRemSize),
                   Fill(lengths, NextFile(lengths, c), pieceRemLen - curFileRemSize));
        subpieces := subpieces + [Subpiece(curFile, offset, curFileRemSize)];
        pieceRemLen := pieceRemLen - curFileRemSize;
        curFile := curFile + 1;
        past := past || curFile >= |lengths|;
        curFileTotSize := LengthAt(lengths, curFile);
        curFileRemSize := curFileTotSize;
      } else {
        RemainingAfterPart(lengths, c, pieceRemLen);
        ResumeStep(subpieces, Subpiece(curFile, offset, pieceRemLen),
                   ([], Cursor(curFile, curFileRemSize - pieceRemLen)));
        ResumeStep(subpieces + [Subpiece(curFile, offset, pieceRemLen)], Subpiece(0, 0, 0),
                   ([], Cursor(curFile, curFileRemSize - pieceRemLen)));
        subpieces := subpieces + [Subpiece(curFile, offset, pieceRemLen)];
        curFileRemSize := curFileRemSize - pieceRemLen;
        pieceRemLen := 0;
      }
    }
    ResumeStep(subpieces, Subpiece(0, 0, 0), ([], Cursor(curFile, curFileRemSize)));
    FillPasses(lengths, Cursor(file, rem), pieceLength);
  }

  /** The inner loop passes the last file exactly when it takes all that is left and that file is not empty. */
  lemma {:induction false} FillPasses(lengths: seq<nat>, c: Cursor, want: nat)
    requires ValidCursor(lengths, c) && c.file < |lengths| && want <= |Remaining(lengths, c)|
    ensures Fill(lengths, c, want).1.file >= |lengths| <==>
            c.rem <= want == |Remaining(lengths, c)| && 0 < want && lengths[|lengths| - 1] > 0
  {
    if 0 < want == |Remaining(lengths, c)| {
      FillToEnd(lengths, c, want);
    } else if want < |Remaining(lengths, c)| {
      FillTakes(lengths, c, want);
    }
  }

  /** One piece: a single subpiece if the current file holds it, otherwise the inner loop. */
  method CarvePiece(lengths: seq<nat>, file: nat, rem: nat, pieceLength: nat)
    returns (subpieces: seq<Subpiece>, curFile: nat, curFileRemSize: nat, past: bool)
    requires ValidCursor(lengths, Cursor(file, rem)) && file < |lengths|
    requires pieceLength <= |Remaining(lengths, Cursor(file, rem))|
    ensures (subpieces, Cursor(curFile, curFileRemSize)) == Carve(lengths, Cursor(file, rem), pieceLength)
    ensures past <==> curFile >= |lengths|
  {
    if rem < pieceLength {
      subpieces, curFile, curFileRemSize, past := FillPiece(lengths, file, rem, pieceLength);
    } else {
      var offset := LengthAt(lengths, file) - rem;
      subpieces := [Subpiece(file, offset, pieceLength)];
      curFile, curFileRemSize, past := file, rem - pieceLength, false;
    }
  }

  /**
   `Torrent::pieces`, with its running file, file size and remainder; `past` tells
   that it read the length of a file that is not there.
   */
  method GeneratePieces(t: Descriptor, length: nat) returns (pieces: seq<Piece>, past: bool)
    requires Fits(t) && length == Total(t.lengths)
    ensures pieces == Pieces(t)
    ensures past <==> ReadsPast(t)
  {
    pieces := [];
    var curFile: nat := 0;
    past := curFile >= |t.lengths|;
    var curFileRemSize: nat := LengthAt(t.lengths, curFile);
    for index := 0 to t.count
      invariant Cursor(curFile, curFileRemSize) == CursorAt(t, index)
      invariant past <==> curFile >= |t.lengths|
      invariant Pieces(t) == pieces + PiecesFrom(t, index, CursorAt(t, index))
    {
      ghost var c := Cursor(curFile, curFileRemSize);
      CursorInside(t, index);
      CarveStep(t, index, c, pieces);
      var pieceLength: int := t.pieceLength;
      if index == t.count - 1 {
        var beforeThisPiece := (t.count - 1) * t.pieceLength;
        pieceLength := length - beforeThisPiece;
      }
      assert pieceLength == WantAt(t, index);
      var subpieces;
      subpieces, curFile, curFileRemSize, past := CarvePiece(t.lengths, curFile, curFileRemSize, pieceLength);
      pieces := pieces + [Piece(index, subpieces)];
    }
    if t.count > 0 {
      LastCursor(t);
    }
  }
}
