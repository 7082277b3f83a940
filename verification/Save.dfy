/**
 Saving downloaded pieces. `PieceTask::save` writes the whole content of a piece
 at the offset of every one of its subpieces; it does not cut the content to the
 subpiece. A file is a byte sequence that a write overwrites in place and, past
 its end, extends.
 */
module Save {
  import opened Octets
  import opened Layout

  type Bytes = seq<Octet>

  // ----- Files -----

  /** What a seek and a write make of a file; a gap between its end and the offset fills with zeros. */
  function WriteAt(file: Bytes, offset: nat, bytes: Bytes): (r: Bytes) {
    if bytes == [] then file
    else if offset > |file| then file + Zeros(offset - |file|) + bytes
    else file[..offset] + bytes + if offset + |bytes| <= |file| then file[offset + |bytes|..] else []
  }

  /** A write changes the bytes of its own range, adds zeros before it if it starts past the end, and no more. */
  lemma {:induction false} WriteAtExact(file: Bytes, offset: nat, bytes: Bytes)
    requires bytes != []
    ensures var r := WriteAt(file, offset, bytes);
      && |r| == (if offset + |bytes| <= |file| then |file| else offset + |bytes|)
      && r[offset..offset + |bytes|] == bytes
      && (forall i | 0 <= i < |r| && !(offset <= i < offset + |bytes|) :: r[i] == if i < |file| then file[i] else 0)
  {
  }

  /** All subpieces name a file of the disk. */
  predicate Named(disk: seq<Bytes>, subs: seq<Subpiece>) {
    forall k | 0 <= k < |subs| :: subs[k].file < |disk|
  }

  /** The effect of saving one piece on the disk. */
  function SaveSubpieces(disk: seq<Bytes>, subs: seq<Subpiece>, content: Bytes): (r: seq<Bytes>)
    requires Named(disk, subs)
    ensures |r| == |disk| && forall f | 0 <= f < |disk| :: |r[f]| >= |disk[f]|
    decreases |subs|
  {
    if subs == [] then disk
    else
      var f := subs[0].file;
      SaveSubpieces(disk[f := WriteAt(disk[f], subs[0].offset, content)], subs[1..], content)
  }

  lemma {:induction false} SaveNext(disk: seq<Bytes>, subs: seq<Subpiece>, k: nat, content: Bytes)
    requires k < |subs| && Named(disk, subs)
    ensures Named(disk, subs[..k]) && Named(disk, subs[..k + 1])
    ensures var mid, sub := SaveSubpieces(disk, subs[..k], content), subs[k];
      SaveSubpieces(disk, subs[..k + 1], content) == mid[sub.file := WriteAt(mid[sub.file], sub.offset, content)]
    decreases k
  {
    if k == 0 {
      assert subs[..1][1..] == [] && subs[..1][0] == subs[0];
    } else {
      var next := disk[subs[0].file := WriteAt(disk[subs[0].file], subs[0].offset, content)];
      assert subs[..k][1..] == subs[1..][..k - 1] && subs[..k + 1][1..] == subs[1..][..k];
      SaveNext(next, subs[1..], k - 1, content);
    }
  }

  class Disk {
    var files: seq<Bytes>

    constructor (files: seq<Bytes>)
      ensures this.files == files
    {
      this.files := files;
    }

    /** `write_bytes`: seek to the offset and write all bytes. */
    method WriteBytes(file: nat, bytes: Bytes, offset: nat)
      requires file < |files|
      modifies this
      ensures |files| == |old(files)| && forall f | 0 <= f < |files| && f != file :: files[f] == old(files)[f]
      ensures files[file] == WriteAt(old(files)[file], offset, bytes)
      ensures bytes == [] ==> files[file] == old(files)[file]
      ensures bytes != [] ==>
        |files[file]| >= offset + |bytes| && |files[file]| >= |old(files)[file]| &&
        (|files[file]| == offset + |bytes| || |files[file]| == |old(files)[file]|)
      ensures bytes != [] ==> files[file][offset..offset + |bytes|] == bytes
      ensures forall i | 0 <= i < |files[file]| && !(offset <= i < offset + |bytes|) ::
        files[file][i] == if i < |old(files)[file]| then old(files)[file][i] else 0
    {
      if bytes != [] {
        WriteAtExact(files[file], offset, bytes);
      }
      files := files[file := WriteAt(files[file], offset, bytes)];
    }

    /**
     `PieceTask::save`: one write of the whole content per subpiece, up to the
     first that fails. `good` is how many writes succeed.
     */
    method Save(piece: Piece, content: Bytes, good: nat) returns (ok: bool)
      requires Named(files, piece.subpieces)
      modifies this
      ensures ok <==> |piece.subpieces| <= good
      ensures files == SaveSubpieces(old(files), if ok then piece.subpieces else piece.subpieces[..good], content)
    {
      var subs := piece.subpieces;
      for k := 0 to |subs|
        invariant k <= good && files == SaveSubpieces(old(files), subs[..k], content)
      {
        if k == good {
          return false;
        }
        SaveNext(old(files), subs, k, content);
        WriteBytes(subs[k].file, content, subs[k].offset);
      }
      assert subs[..|subs|] == subs;
      return true;
    }
  }

  // ----- Saving the pieces of a torrent -----

  /** The true bytes of piece `k` of a torrent whose concatenated files are `truth`. */
  function Content(t: Descriptor, truth: Bytes, k: nat): (r: Bytes)
    requires Fits(t) && |truth| == Total(t.lengths) && k < t.count
    ensures |r| == WantAt(t, k)
  {
    BeforeBounds(t, k + 1);
    var want := WantAt(t, k);
    truth[Before(t, k)..Before(t, k + 1)]
  }

  /** The true content of file `f`: the bytes after those of the files before it. */
  function FileContent(lengths: seq<nat>, truth: Bytes, f: nat): Bytes
    requires |truth| == Total(lengths) && f < |lengths|
  {
    if f == 0 then truth[..lengths[0]] else FileContent(lengths[1..], truth[lengths[0]..], f - 1)
  }

  predicate AllSaved(t: Descriptor, truth: Bytes, disk: seq<Bytes>)
    requires |truth| == Total(t.lengths)
  {
    |disk| == |t.lengths| && forall f | 0 <= f < |disk| :: disk[f] == FileContent(t.lengths, truth, f)
  }

  lemma {:induction false} PieceNamed(t: Descriptor, disk: seq<Bytes>, k: nat)
    requires Fits(t) && |disk| == |t.lengths| && k < t.count
    ensures Named(disk, Pieces(t)[k].subpieces)
  {
    PiecesExact(t, k);
  }

  function SavePiece(t: Descriptor, truth: Bytes, disk: seq<Bytes>, k: nat): (r: seq<Bytes>)
    requires Fits(t) && |truth| == Total(t.lengths) && |disk| == |t.lengths| && k < t.count
    ensures |r| == |disk| && forall f | 0 <= f < |disk| :: |r[f]| >= |disk[f]|
  {
    PieceNamed(t, disk, k);
    SaveSubpieces(disk, Pieces(t)[k].subpieces, Content(t, truth, k))
  }

  predicate Ordered(t: Descriptor, order: seq<nat>) {
    forall i | 0 <= i < |order| :: order[i] < t.count
  }

  /** Saving the pieces in a given order, possibly with repeats. */
  function SaveOrder(t: Descriptor, truth: Bytes, disk: seq<Bytes>, order: seq<nat>): (r: seq<Bytes>)
    requires Fits(t) && |truth| == Total(t.lengths) && |disk| == |t.lengths| && Ordered(t, order)
    ensures |r| == |disk| && forall f | 0 <= f < |disk| :: |r[f]| >= |disk[f]|
    decreases |order|
  {
    if order == [] then disk else SaveOrder(t, truth, SavePiece(t, truth, disk, order[0]), order[1..])
  }

  /** All bytes lie in the first file. */
  predicate OneFile(lengths: seq<nat>) {
    LengthAt(lengths, 0) == Total(lengths)
  }

  lemma {:induction false} TotalBound(lengths: seq<nat>, f: nat)
    requires f < |lengths|
    ensures lengths[f] <= Total(lengths)
  {
    if f > 0 {
      TotalBound(lengths[1..], f - 1);
    }
  }

  // ----- When all bytes lie in the first file -----

  lemma {:induction false} OneFileCursor(t: Descriptor, k: nat)
    requires Fits(t) && OneFile(t.lengths) && k <= t.count
    ensures Before(t, k) <= Total(t.lengths) && CursorAt(t, k) == Cursor(0, Total(t.lengths) - Before(t, k))
  {
    BeforeBounds(t, k);
    if k > 0 {
      OneFileCursor(t, k - 1);
      var want := WantAt(t, k - 1);
    }
  }

  /** Then every piece is one subpiece, at its own place in that file. */
  lemma {:induction false} OneFilePieces(t: Descriptor, k: nat)
    requires Fits(t) && OneFile(t.lengths) && k < t.count
    ensures Pieces(t)[k] == Piece(k, [Subpiece(0, Before(t, k), WantAt(t, k))])
  {
    PieceAtCursor(t, k);
    OneFileCursor(t, k);
    BeforeBounds(t, k + 1);
  }

  /** The first file is right on the bytes of piece `k`. */
  predicate SavedPiece(t: Descriptor, truth: Bytes, disk: seq<Bytes>, k: nat)
    requires Fits(t) && |truth| == Total(t.lengths) && k < t.count
  {
    |disk| > 0 && Before(t, k + 1) <= |disk[0]| && disk[0][Before(t, k)..Before(t, k + 1)] == Content(t, truth, k)
  }

  predicate SameShape(disk: seq<Bytes>, lengths: seq<nat>) {
    |disk| == |lengths| && forall f | 0 <= f < |lengths| :: |disk[f]| == lengths[f]
  }

  /** A write inside a file replaces its own range and no other. */
  lemma {:induction false} WriteInside(file: Bytes, offset: nat, bytes: Bytes, i: nat, j: nat)
    requires bytes != [] && offset + |bytes| <= |file| && i <= j <= |file|
    ensures |WriteAt(file, offset, bytes)| == |file|
    ensures WriteAt(file, offset, bytes)[offset..offset + |bytes|] == bytes
    ensures j <= offset || offset + |bytes| <= i ==> WriteAt(file, offset, bytes)[i..j] == file[i..j]
  {
    WriteAtExact(file, offset, bytes);
  }

  lemma {:induction false} SaveSingle(disk: seq<Bytes>, sub: Subpiece, content: Bytes)
    requires sub.file < |disk|
    ensures SaveSubpieces(disk, [sub], content) == disk[sub.file := WriteAt(disk[sub.file], sub.offset, content)]
  {
    assert [sub][0] == sub && [sub][1..] == [];
    var next := disk[sub.file := WriteAt(disk[sub.file], sub.offset, content)];
    assert SaveSubpieces(next, [], content) == next;
  }

  lemma {:induction false} OneFileBounds(t: Descriptor, disk: seq<Bytes>, k: nat)
    requires Fits(t) && OneFile(t.lengths) && SameShape(disk, t.lengths) && k < t.count
    ensures |disk| > 0 && |disk[0]| == Total(t.lengths) && Before(t, k) + WantAt(t, k) <= |disk[0]|
    ensures Pieces(t)[k].subpieces == [Subpiece(0, Before(t, k), WantAt(t, k))]
  {
    BeforeBounds(t, 0);
    BeforeBounds(t, k + 1);
    OneFilePieces(t, k);
  }

  lemma {:induction false} OneFileSave(t: Descriptor, truth: Bytes, disk: seq<Bytes>, k: nat)
    requires Fits(t) && OneFile(t.lengths) && |truth| == Total(t.lengths)
    requires SameShape(disk, t.lengths) && k < t.count
    ensures |disk| > 0 && |disk[0]| == Total(t.lengths) && Before(t, k) + WantAt(t, k) <= |disk[0]|
    ensures SavePiece(t, truth, disk, k) == disk[0 := WriteAt(disk[0], Before(t, k), Content(t, truth, k))]
  {
    OneFileBounds(t, disk, k);
    SaveSingle(disk, Subpiece(0, Before(t, k), WantAt(t, k)), Content(t, truth, k));
  }

  /** The ranges of two pieces are apart. */
  lemma {:induction false} PiecesApart(t: Descriptor, j: nat, k: nat)
    requires Fits(t) && j < t.count && k < t.count && j != k
    ensures Before(t, j + 1) <= Before(t, k) || Before(t, k + 1) <= Before(t, j)
  {
    if j < k {
      BeforeMonotone(t, j + 1, k);
    } else {
      BeforeMonotone(t, k + 1, j);
    }
  }

  lemma {:induction false} SaveKeeps(t: Descriptor, truth: Bytes, disk: seq<Bytes>, k: nat, j: nat)
    requires Fits(t) && OneFile(t.lengths) && |truth| == Total(t.lengths)
    requires SameShape(disk, t.lengths) && k < t.count && j < t.count
    requires j == k || SavedPiece(t, truth, disk, j)
    ensures SavedPiece(t, truth, SavePiece(t, truth, disk, k), j)
  {
    OneFileSave(t, truth, disk, k);
    BeforeBounds(t, j + 1);
    BeforeMonotone(t, j, j + 1);
    WriteInside(disk[0], Before(t, k), Content(t, truth, k), Before(t, j), Before(t, j + 1));
    if j != k {
      PiecesApart(t, j, k);
    }
  }

  /** Saving one piece makes it right and keeps every other right piece right. */
  lemma {:induction false} SaveOne(t: Descriptor, truth: Bytes, disk: seq<Bytes>, k: nat)
    requires Fits(t) && OneFile(t.lengths) && |truth| == Total(t.lengths)
    requires SameShape(disk, t.lengths) && k < t.count
    ensures var next := SavePiece(t, truth, disk, k);
      SameShape(next, t.lengths) &&
      forall j | 0 <= j < t.count && (j == k || SavedPiece(t, truth, disk, j)) :: SavedPiece(t, truth, next, j)
  {
    OneFileSave(t, truth, disk, k);
    WriteInside(disk[0], Before(t, k), Content(t, truth, k), 0, 0);
    forall j | 0 <= j < t.count && (j == k || SavedPiece(t, truth, disk, j))
      ensures SavedPiece(t, truth, SavePiece(t, truth, disk, k), j)
    {
      SaveKeeps(t, truth, disk, k, j);
    }
  }

  lemma {:induction false} SaveManyRight(t: Descriptor, truth: Bytes, disk: seq<Bytes>, order: seq<nat>)
    requires Fits(t) && OneFile(t.lengths) && |truth| == Total(t.lengths) && SameShape(disk, t.lengths)
    requires Ordered(t, order)
    ensures var end := SaveOrder(t, truth, disk, order);
      && SameShape(end, t.lengths)
      && (forall j | 0 <= j < t.count && SavedPiece(t, truth, disk, j) :: SavedPiece(t, truth, end, j))
      && (forall i | 0 <= i < |order| :: SavedPiece(t, truth, end, order[i]))
    decreases |order|
  {
    if order != [] {
      var next := SavePiece(t, truth, disk, order[0]);
      SaveOne(t, truth, disk, order[0]);
      assert SavedPiece(t, truth, next, order[0]);
      SaveManyRight(t, truth, next, order[1..]);
    }
  }

  /** Bytes that are right on every piece are right. */
  lemma {:induction false} PiecesMakeFile(t: Descriptor, truth: Bytes, disk: seq<Bytes>, k: nat)
    requires Fits(t) && |truth| == Total(t.lengths) && |disk| > 0 && |disk[0]| == |truth| && k <= t.count
    requires forall j | 0 <= j < t.count :: SavedPiece(t, truth, disk, j)
    ensures Before(t, k) <= |truth| && disk[0][..Before(t, k)] == truth[..Before(t, k)]
  {
    BeforeBounds(t, k);
    if k > 0 {
      PiecesMakeFile(t, truth, disk, k - 1);
      assert SavedPiece(t, truth, disk, k - 1);
      var mid, to := Before(t, k - 1), Before(t, k);
      var want := WantAt(t, k - 1);
      assert disk[0][..to] == disk[0][..mid] + disk[0][mid..to];
      assert truth[..to] == truth[..mid] + truth[mid..to];
    }
  }

  lemma {:induction false} EmptyFiles(lengths: seq<nat>, truth: Bytes, f: nat)
    requires |truth| == Total(lengths) && OneFile(lengths) && 0 < f < |lengths|
    ensures lengths[f] == 0 && FileContent(lengths, truth, f) == []
  {
    var rest := lengths[1..];
    TotalBound(rest, f - 1);
    EmptyContent(rest, truth[lengths[0]..], f - 1);
  }

  lemma {:induction false} EmptyContent(lengths: seq<nat>, truth: Bytes, f: nat)
    requires |truth| == Total(lengths) == 0 && f < |lengths|
    ensures FileContent(lengths, truth, f) == []
  {
    if f > 0 {
      EmptyContent(lengths[1..], truth[lengths[0]..], f - 1);
    }
  }

  // ----- When they do not -----

  /** Some piece does not fit the file it starts in: its first subpiece ends that file early. */
  predicate Overruns(t: Descriptor, piece: Piece, want: nat) {
    piece.subpieces != [] &&
    var sub := piece.subpieces[0];
    sub.file < |t.lengths| && sub.offset + want > t.lengths[sub.file]
  }

  lemma {:induction false} SomeOverrun(t: Descriptor, index: nat, c: Cursor) returns (k: nat)
    requires Fits(t) && !OneFile(t.lengths) && index <= t.count
    requires c.file == 0 && c.rem == LengthAt(t.lengths, 0) - Before(t, index)
    ensures index <= k < t.count && Overruns(t, PiecesFrom(t, index, c)[k - index], WantAt(t, k))
    decreases t.count - index
  {
    TotalBound(t.lengths, 0);
    BeforeBounds(t, index);
    var want := WantAt(t, index);
    if c.rem < want {
      k := index;
    } else {
      k := SomeOverrun(t, index + 1, Cursor(0, c.rem - want));
    }
  }

  lemma {:induction false} OverrunNow(t: Descriptor, truth: Bytes, disk: seq<Bytes>, k: nat)
    requires Fits(t) && |truth| == Total(t.lengths) && |disk| == |t.lengths| && k < t.count
    requires Overruns(t, Pieces(t)[k], WantAt(t, k))
    ensures var f := Pieces(t)[k].subpieces[0].file;
      |SavePiece(t, truth, disk, k)[f]| > t.lengths[f]
  {
    var sub, content := Pieces(t)[k].subpieces[0], Content(t, truth, k);
    PieceNamed(t, disk, k);
    WriteAtExact(disk[sub.file], sub.offset, content);
  }

  /** A file that a saved piece overran is too long ever after. */
  lemma {:induction false} OverrunStays(t: Descriptor, truth: Bytes, disk: seq<Bytes>, order: seq<nat>, k: nat)
    requires Fits(t) && |truth| == Total(t.lengths) && |disk| == |t.lengths|
    requires Ordered(t, order)
    requires k in order && Overruns(t, Pieces(t)[k], WantAt(t, k))
    ensures var f := Pieces(t)[k].subpieces[0].file;
      |SaveOrder(t, truth, disk, order)[f]| > t.lengths[f]
    decreases |order|
  {
    var j := order[0];
    var next := SavePiece(t, truth, disk, j);
    if j == k {
      OverrunNow(t, truth, disk, k);
    } else {
      assert k in order[1..];
      OverrunStays(t, truth, next, order[1..], k);
    }
  }

  lemma {:induction false} FileContentLength(lengths: seq<nat>, truth: Bytes, f: nat)
    requires |truth| == Total(lengths) && f < |lengths|
    ensures |FileContent(lengths, truth, f)| == lengths[f]
  {
    if f > 0 {
      FileContentLength(lengths[1..], truth[lengths[0]..], f - 1);
    }
  }

  /** Every piece of the torrent occurs in the order. */
  predicate Complete(t: Descriptor, order: seq<nat>) {
    forall k: nat | k < t.count :: k in order
  }

  lemma {:induction false} SaveAllRight(t: Descriptor, truth: Bytes, disk: seq<Bytes>, order: seq<nat>)
    requires Fits(t) && |truth| == Total(t.lengths) && SameShape(disk, t.lengths)
    requires Ordered(t, order) && Complete(t, order) && OneFile(t.lengths)
    ensures AllSaved(t, truth, SaveOrder(t, truth, disk, order))
  {
    var end := SaveOrder(t, truth, disk, order);
    SaveManyRight(t, truth, disk, order);
    if t.lengths != [] {
      forall j | 0 <= j < t.count
        ensures SavedPiece(t, truth, end, j)
      {
        assert j in order;
      }
      PiecesMakeFile(t, truth, end, t.count);
      BeforeBounds(t, t.count);
      assert end[0] == end[0][..|truth|] == truth[..|truth|] == truth[..t.lengths[0]];
    }
    forall f | 0 < f < |t.lengths|
      ensures end[f] == FileContent(t.lengths, truth, f)
    {
      EmptyFiles(t.lengths, truth, f);
    }
  }

  lemma {:induction false} SaveAllWrong(t: Descriptor, truth: Bytes, disk: seq<Bytes>, order: seq<nat>)
    requires Fits(t) && |truth| == Total(t.lengths) && SameShape(disk, t.lengths)
    requires Ordered(t, order) && Complete(t, order) && !OneFile(t.lengths)
    ensures !AllSaved(t, truth, SaveOrder(t, truth, disk, order))
  {
    BeforeBounds(t, 0);
    var k := SomeOverrun(t, 0, Start(t.lengths));
    OverrunStays(t, truth, disk, order, k);
    FileContentLength(t.lengths, truth, Pieces(t)[k].subpieces[0].file);
  }

  /**
   After every piece has been saved at least once, in any order and with any
   repeats, the files hold their true contents exactly when all bytes lie in
   the first file.
   */
  lemma {:induction false} SaveAllExact(t: Descriptor, truth: Bytes, disk: seq<Bytes>, order: seq<nat>)
    requires Fits(t) && |truth| == Total(t.lengths) && SameShape(disk, t.lengths)
    requires Ordered(t, order) && Complete(t, order)
    ensures AllSaved(t, truth, SaveOrder(t, truth, disk, order)) <==> OneFile(t.lengths)
  {
    if OneFile(t.lengths) {
      SaveAllRight(t, truth, disk, order);
    } else {
      SaveAllWrong(t, truth, disk, order);
    }
  }

  /** With no empty files, which the client refuses to create, that means exactly one file. */
  lemma {:induction false} OneFileMeansOne(lengths: seq<nat>)
    requires lengths != [] && forall f | 0 <= f < |lengths| :: lengths[f] > 0
    ensures OneFile(lengths) <==> |lengths| == 1
  {
    if |lengths| > 1 {
      TotalBound(lengths[1..], 0);
    } else {
      assert lengths[1..] == [] && Total(lengths[1..]) == 0;
    }
  }

  lemma {:induction false} TwoFilesSave(content: Bytes)
    requires |content| == 2
    ensures SaveSubpieces([[0], [0]], [Subpiece(0, 0, 1), Subpiece(1, 0, 1)], content) == [content, content]
  {
    var first, second := Subpiece(0, 0, 1), Subpiece(1, 0, 1);
    var disk: seq<Bytes> := [[0], [0]];
    assert WriteAt([0], 0, content) == content;
    assert [first, second][1..] == [second];
    assert disk[0 := content] == [content, [0]];
    SaveSingle([content, [0]], second, content);
  }

  /** Two one-byte files in one piece: the first file comes out two bytes long. */
  lemma {:induction false} TwoFilesSpoiled()
    ensures var t := Descriptor([1, 1], 2, 1);
      Fits(t) && SaveOrder(t, [1, 2], [[0], [0]], [0])[0] == [1, 2]
  {
    var t := Descriptor([1, 1], 2, 1);
    TwoFilesPiece();
    var content: Bytes := [1, 2];
    assert Content(t, content, 0) == content;
    TwoFilesSave(content);
    assert [0][1..] == [];
  }

  lemma {:induction false} TwoFilesPiece()
    ensures var t := Descriptor([1, 1], 2, 1);
      Fits(t) && Pieces(t)[0] == Piece(0, [Subpiece(0, 0, 1), Subpiece(1, 0, 1)])
  {
    var t := Descriptor([1, 1], 2, 1);
    assert t.lengths[1..] == [1] && t.lengths[1..][1..] == [];
    var first, second := Subpiece(0, 0, 1), Subpiece(1, 0, 1);
    assert Fill(t.lengths, Cursor(2, 0), 0) == ([], Cursor(2, 0));
    assert Fill(t.lengths, Cursor(1, 1), 1) == ([second] + [], Cursor(2, 0));
    assert Fill(t.lengths, Cursor(0, 1), 2) == ([first] + ([second] + []), Cursor(2, 0));
    assert [first] + ([second] + []) == [first, second];
  }
}
