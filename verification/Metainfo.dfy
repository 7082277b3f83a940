/**
 The `.torrent` descriptor built from a decoded metainfo tree, and the bytes
 whose SHA1 names the torrent: they are re-encoded from the tree, never cut from
 the text the tree was read from.

 SHA1 itself is not modelled: the descriptor keeps the bytes that are hashed.
 */
module Metainfo {
  import opened Options
  import opened Bencode
  import opened Spelling
  import opened Scan
  import opened BencodeTheorems
  import Layout

  /** C++ exceptions and undefined divisions that can end the constructor. */
  datatype Failure = BadCast | MissingKey | Malformed | CountMismatch | DivisionByZero

  datatype Result<+T> = Done(value: T) | Failed(failure: Failure)

  datatype File = File(filepath: seq<string>, length: int)

  datatype TorrentFile = TorrentFile(
    announceUrl: string,
    infoBytes: string,
    name: string,
    files: seq<File>,
    pieceLength: int,
    length: int,
    pieceHashes: seq<string>,
    piecesCount: int)

  const INT32_MAX: int := 0x7FFF_FFFF

  /** `static_cast<int>` of an `int64_t`: the low 32 bits, read as signed. */
  function ToInt32(i: int): (r: int)
    ensures -INT32_MAX - 1 <= r <= INT32_MAX
  {
    var low := i % 0x1_0000_0000;
    if low > INT32_MAX then low - 0x1_0000_0000 else low
  }

  /** The cast keeps the value modulo 2^32, and so keeps every value that fits. */
  lemma {:induction false} ToInt32Exact(i: int)
    ensures (ToInt32(i) - i) % 0x1_0000_0000 == 0
    ensures -INT32_MAX - 1 <= i <= INT32_MAX ==> ToInt32(i) == i
  {
    var n := 0x1_0000_0000;
    assert i == n * (i / n) + i % n;
    assert (ToInt32(i) - i) == n * (-(i / n)) || (ToInt32(i) - i) == n * (-(i / n) - 1);
  }

  /** C++ integer division, which truncates toward zero. */
  function Quotient(a: int, b: int): int
    requires b != 0
  {
    if (a >= 0) == (b > 0) then Abs(a) / Abs(b) else -(Abs(a) / Abs(b))
  }

  lemma {:induction false} Signs(q: int, y: int)
    ensures (-q) * y == -(q * y) && q * (-y) == -(q * y) && (-q) * (-y) == q * y
  {
  }

  lemma {:induction false} DivisionRest(x: nat, y: nat)
    requires y > 0
    ensures 0 <= x - (x / y) * y < y
  {
    assert x == y * (x / y) + x % y;
  }

  /** The remainder is smaller than the divisor and has the sign of the dividend. */
  lemma {:induction false} QuotientTruncates(a: int, b: int)
    requires b != 0
    ensures var rest := a - Quotient(a, b) * b;
      Abs(rest) < Abs(b) && (a >= 0 ==> rest >= 0) && (a <= 0 ==> rest <= 0)
  {
    var q: int, y: int := Abs(a) / Abs(b), Abs(b);
    DivisionRest(Abs(a), Abs(b));
    Signs(q, y);
    assert b == y || b == -y;
    assert Quotient(a, b) == if (a >= 0) == (b > 0) then q else -q;
  }

  function Abs(i: int): nat {
    if i < 0 then -i else i
  }

  function TotalLength(files: seq<File>): int {
    if files == [] then 0 else TotalLength(files[..|files| - 1]) + files[|files| - 1].length
  }

  // ----- Checked access -----

  function ValueAt(fields: seq<Field>, key: string): Result<Value> {
    match Lookup(fields, key)
    case Some(v) => Done(v)
    case None => Failed(MissingKey)
  }

  /** The bytes handed to SHA1: the printed `info` dictionary. */
  function InfoBytes(tree: Value): Result<string> {
    if !tree.Dict? then Failed(BadCast)
    else
      var info := ValueAt(tree.fields, "info");
      if info.Failed? then Failed(info.failure)
      else if !info.value.Dict? then Failed(BadCast)
      else Done(Encode(info.value))
  }

  // ----- Which trees describe a torrent -----

  /** A file dictionary: an integer `length` and a `path` of strings. */
  predicate IsFileNode(node: Value) {
    && node.Dict?
    && Lookup(node.fields, "length").Some? && Lookup(node.fields, "length").value.Int?
    && Lookup(node.fields, "path").Some? && Lookup(node.fields, "path").value.List?
    && var path := Lookup(node.fields, "path").value.items;
       forall k | 0 <= k < |path| :: path[k].Str?
  }

  predicate NamesFile(node: Value, file: File) {
    && IsFileNode(node)
    && Lookup(node.fields, "length").value.i == file.length
    && var path := Lookup(node.fields, "path").value.items;
       |path| == |file.filepath| && forall k | 0 <= k < |path| :: path[k].s == file.filepath[k]
  }

  /** The files of an `info` dictionary: the `files` list if there is one, else one file called `name`. */
  predicate Lists(info: seq<Field>, name: string, files: seq<File>) {
    match Lookup(info, "files")
    case Some(v) => v.List? && |v.items| == |files| && forall k | 0 <= k < |files| :: NamesFile(v.items[k], files[k])
    case None => |files| == 1 && files[0].filepath == [name] && Lookup(info, "length") == Some(Int(files[0].length))
  }

  /** The 20-byte hashes of a `pieces` string. */
  predicate Splits(pieces: string, hashes: seq<string>) {
    |pieces| == 20 * |hashes| && forall k | 0 <= k < |hashes| :: hashes[k] == pieces[20 * k..20 * k + 20]
  }

  predicate DescribesInfo(info: seq<Field>, file: TorrentFile) {
    && Lookup(info, "name") == Some(Str(file.name))
    && Lists(info, file.name, file.files)
    && file.length == TotalLength(file.files)
    && Lookup(info, "piece length").Some? && Lookup(info, "piece length").value.Int?
    && file.pieceLength == ToInt32(Lookup(info, "piece length").value.i)
    && file.pieceLength != 0
    && Lookup(info, "pieces").Some? && Lookup(info, "pieces").value.Str?
    && Splits(Lookup(info, "pieces").value.s, file.pieceHashes)
    && file.piecesCount == Quotient(file.length + file.pieceLength - 1, file.pieceLength)
    && file.piecesCount == |file.pieceHashes|
  }

  /** The dictionary describes no torrent. */
  ghost predicate Undescribed(info: seq<Field>) {
    forall file :: !DescribesInfo(info, file)
  }

  /** The descriptor is the one the metainfo tree describes. */
  predicate Describes(tree: Value, file: TorrentFile) {
    && tree.Dict?
    && Lookup(tree.fields, "announce") == Some(Str(file.announceUrl))
    && InfoBytes(tree) == Done(file.infoBytes)
    && |file.infoBytes| <= INT32_MAX
    && DescribesInfo(Lookup(tree.fields, "info").value.fields, file)
  }

  lemma {:induction false} SameFiles(info: seq<Field>, name: string, a: seq<File>, b: seq<File>)
    requires Lists(info, name, a) && Lists(info, name, b)
    ensures a == b
  {
    assert |a| == |b|;
    forall k | 0 <= k < |a|
      ensures a[k] == b[k]
    {
      assert a[k].filepath == b[k].filepath;
    }
  }

  /** A tree describes at most one torrent. */
  lemma {:induction false} DescribesOne(tree: Value, a: TorrentFile, b: TorrentFile)
    requires Describes(tree, a) && Describes(tree, b)
    ensures a == b
  {
    SameFiles(Lookup(tree.fields, "info").value.fields, a.name, a.files, b.files);
    assert a.pieceHashes == b.pieceHashes;
  }

  // ----- The constructor -----

  /** The path segments of one file. */
  method ReadPath(nodes: seq<Value>) returns (r: Result<seq<string>>)
    ensures r.Done? <==> forall k | 0 <= k < |nodes| :: nodes[k].Str?
    ensures r.Done? ==> |r.value| == |nodes| && forall k | 0 <= k < |nodes| :: nodes[k].s == r.value[k]
  {
    var path: seq<string> := [];
    for k := 0 to |nodes|
      invariant |path| == k && forall j | 0 <= j < k :: nodes[j] == Str(path[j])
    {
      if !nodes[k].Str? {
        return Failed(BadCast);
      }
      path := path + [nodes[k].s];
    }
    return Done(path);
  }

  /** One node of the `files` list. */
  method ReadFile(node: Value) returns (r: Result<File>)
    ensures r.Done? <==> IsFileNode(node)
    ensures r.Done? ==> NamesFile(node, r.value)
  {
    if !node.Dict? {
      return Failed(BadCast);
    }
    var length := ValueAt(node.fields, "length");
    if length.Failed? {
      return Failed(length.failure);
    }
    if !length.value.Int? {
      return Failed(BadCast);
    }
    var path := ValueAt(node.fields, "path");
    if path.Failed? {
      return Failed(path.failure);
    }
    if !path.value.List? {
      return Failed(BadCast);
    }
    var segments := ReadPath(path.value.items);
    if segments.Failed? {
      return Failed(segments.failure);
    }
    return Done(File(segments.value, length.value.i));
  }

  /** The multi-file loop: one file per node, with the running total of their lengths. */
  method ReadFiles(nodes: seq<Value>) returns (r: Result<(seq<File>, int)>)
    ensures r.Done? <==> forall k | 0 <= k < |nodes| :: IsFileNode(nodes[k])
    ensures r.Done? ==> |r.value.0| == |nodes| && r.value.1 == TotalLength(r.value.0)
    ensures r.Done? ==> forall k | 0 <= k < |nodes| :: NamesFile(nodes[k], r.value.0[k])
  {
    var files: seq<File> := [];
    var length := 0;
    for k := 0 to |nodes|
      invariant |files| == k && length == TotalLength(files)
      invariant forall j | 0 <= j < k :: NamesFile(nodes[j], files[j])
    {
      var file := ReadFile(nodes[k]);
      if file.Failed? {
        return Failed(file.failure);
      }
      length := length + file.value.length;
      assert (files + [file.value])[..k] == files;
      files := files + [file.value];
    }
    return Done((files, length));
  }

  /** `split_piece_hashes`: 20 bytes at a time. */
  method SplitHashes(pieces: string) returns (r: Result<seq<string>>)
    ensures r.Done? <==> |pieces| % 20 == 0
    ensures r.Done? ==> Splits(pieces, r.value)
  {
    if |pieces| % 20 > 0 {
      return Failed(Malformed);
    }
    var hashes: seq<string> := [];
    var i := 0;
    while i < |pieces|
      invariant i == 20 * |hashes| && i <= |pieces|
      invariant forall k | 0 <= k < |hashes| :: hashes[k] == pieces[20 * k..20 * k + 20]
    {
      hashes := hashes + [pieces[i..i + 20]];
      i := i + 20;
    }
    return Done(hashes);
  }

  /** The file list: the `files` of a multi-file torrent, or the one file of a single-file torrent. */
  method ReadListing(name: string, info: seq<Field>) returns (r: Result<(seq<File>, int)>)
    ensures r.Done? ==> r.value.1 == TotalLength(r.value.0) && Lists(info, name, r.value.0)
    ensures r.Failed? ==> forall files :: !Lists(info, name, files)
  {
    match Lookup(info, "files")
    case Some(files) =>
      if !files.List? {
        return Failed(BadCast);
      }
      r := ReadFiles(files.items);
      assert r.Failed? ==> exists k :: 0 <= k < |files.items| && !IsFileNode(files.items[k]);
    case None =>
      var length := ValueAt(info, "length");
      if length.Failed? {
        return Failed(length.failure);
      }
      if !length.value.Int? {
        return Failed(BadCast);
      }
      var files := [File([name], length.value.i)];
      assert files[..0] == [];
      return Done((files, length.value.i));
  }

  /** The piece length, cut to 32 bits. */
  method ReadPieceLength(info: seq<Field>) returns (r: Result<int>)
    ensures r.Done? <==> Lookup(info, "piece length").Some? && Lookup(info, "piece length").value.Int?
    ensures r.Done? ==> r.value == ToInt32(Lookup(info, "piece length").value.i)
    ensures r.Failed? ==> Undescribed(info)
  {
    var size := ValueAt(info, "piece length");
    if size.Failed? {
      return Failed(size.failure);
    }
    if !size.value.Int? {
      return Failed(BadCast);
    }
    return Done(ToInt32(size.value.i));
  }

  predicate HasHashes(info: seq<Field>) {
    && Lookup(info, "pieces").Some? && Lookup(info, "pieces").value.Str?
    && |Lookup(info, "pieces").value.s| % 20 == 0
  }

  lemma {:induction false} HashesNeeded(info: seq<Field>)
    ensures !HasHashes(info) ==> Undescribed(info)
  {
    forall file: TorrentFile | DescribesInfo(info, file)
      ensures HasHashes(info)
    {
      assert |Lookup(info, "pieces").value.s| == 20 * |file.pieceHashes|;
    }
  }

  lemma {:induction false} LengthNeeded(info: seq<Field>)
    requires Lookup(info, "piece length").Some? && Lookup(info, "piece length").value.Int?
    ensures ToInt32(Lookup(info, "piece length").value.i) == 0 ==> Undescribed(info)
  {
  }

  /** The hashes of the pieces. */
  method ReadHashes(info: seq<Field>) returns (r: Result<seq<string>>)
    ensures r.Done? <==> HasHashes(info)
    ensures r.Done? ==> Splits(Lookup(info, "pieces").value.s, r.value)
  {
    var pieces := ValueAt(info, "pieces");
    if pieces.Failed? {
      return Failed(pieces.failure);
    }
    if !pieces.value.Str? {
      return Failed(BadCast);
    }
    r := SplitHashes(pieces.value.s);
  }

  /** The files an `info` dictionary lists fix the total length of what it describes. */
  lemma {:induction false} LengthAgrees(info: seq<Field>, file: TorrentFile, name: string, files: seq<File>)
    requires DescribesInfo(info, file) && Lookup(info, "name") == Some(Str(name)) && Lists(info, name, files)
    ensures file.length == TotalLength(files)
  {
    SameFiles(info, name, files, file.files);
  }

  /** The total, the piece length and the number of hashes decide whether a torrent is described. */
  lemma {:induction false} CountTells(info: seq<Field>, total: int, pieceLength: int, count: nat)
    requires forall file :: DescribesInfo(info, file) ==> file.length == total
    requires Lookup(info, "piece length").Some? && Lookup(info, "piece length").value.Int?
    requires pieceLength == ToInt32(Lookup(info, "piece length").value.i) && pieceLength != 0
    requires HasHashes(info) && |Lookup(info, "pieces").value.s| == 20 * count
    ensures count != Quotient(total + pieceLength - 1, pieceLength) ==> Undescribed(info)
  {
    forall file: TorrentFile | DescribesInfo(info, file)
      ensures count == Quotient(total + pieceLength - 1, pieceLength)
    {
      assert 20 * |file.pieceHashes| == 20 * count;
    }
  }

  lemma {:induction false} LengthTells(info: seq<Field>, name: string, files: seq<File>)
    requires Lookup(info, "name") == Some(Str(name)) && Lists(info, name, files)
    ensures forall file :: DescribesInfo(info, file) ==> file.length == TotalLength(files)
  {
    forall file: TorrentFile | DescribesInfo(info, file)
      ensures file.length == TotalLength(files)
    {
      LengthAgrees(info, file, name, files);
    }
  }

  /** The name, the files and their total. */
  method ReadNamed(info: seq<Field>) returns (r: Result<(string, seq<File>, int)>)
    ensures r.Done? ==>
      && Lookup(info, "name") == Some(Str(r.value.0)) && Lists(info, r.value.0, r.value.1)
      && r.value.2 == TotalLength(r.value.1)
    ensures r.Failed? ==> Undescribed(info)
  {
    var name := ValueAt(info, "name");
    if name.Failed? {
      return Failed(name.failure);
    }
    if !name.value.Str? {
      return Failed(BadCast);
    }
    var listed := ReadListing(name.value.s, info);
    if listed.Failed? {
      return Failed(listed.failure);
    }
    return Done((name.value.s, listed.value.0, listed.value.1));
  }

  /** The part of the constructor that reads the `info` dictionary. */
  method LoadInfo(announceUrl: string, infoBytes: string, info: seq<Field>) returns (r: Result<TorrentFile>)
    ensures r.Done? ==>
      DescribesInfo(info, r.value) && r.value.announceUrl == announceUrl && r.value.infoBytes == infoBytes
    ensures r.Failed? ==> Undescribed(info)
  {
    var named := ReadNamed(info);
    if named.Failed? {
      return Failed(named.failure);
    }
    var (name, files, length) := named.value;
    var size := ReadPieceLength(info);
    if size.Failed? {
      return Failed(size.failure);
    }
    var pieceLength := size.value;
    var hashes := ReadHashes(info);
    if hashes.Failed? {
      HashesNeeded(info);
      return Failed(hashes.failure);
    }
    if pieceLength == 0 {
      LengthNeeded(info);
      return Failed(DivisionByZero);
    }
    var piecesCount := Quotient(length + pieceLength - 1, pieceLength);
    if piecesCount != |hashes.value| {
      LengthTells(info, name, files);
      CountTells(info, length, pieceLength, |hashes.value|);
      return Failed(CountMismatch);
    }
    return Done(TorrentFile(announceUrl, infoBytes, name, files, pieceLength, length, hashes.value, piecesCount));
  }

  /**
   `TorrentFile(const BencodeValue&)`: completes exactly on the trees that describe
   a torrent, and returns that torrent.
   */
  method Load(tree: Value) returns (r: Result<TorrentFile>)
    ensures r.Done? ==> Describes(tree, r.value)
    ensures r.Failed? ==> forall file :: !Describes(tree, file)
  {
    if !tree.Dict? {
      return Failed(BadCast);
    }
    var announce := ValueAt(tree.fields, "announce");
    if announce.Failed? {
      return Failed(announce.failure);
    }
    if !announce.value.Str? {
      return Failed(BadCast);
    }
    var info := ValueAt(tree.fields, "info");
    if info.Failed? {
      return Failed(info.failure);
    }
    if !info.value.Dict? {
      return Failed(BadCast);
    }
    var encoded := ToString(info.value);
    if |encoded| > INT32_MAX {
      return Failed(Malformed);
    }
    r := LoadInfo(announce.value.s, encoded, info.value.fields);
  }

  /** A described torrent has the piece length its tree gives if that fits in 32 bits, else its low 32 bits. */
  lemma {:induction false} PieceLengthKept(tree: Value, file: TorrentFile, i: int)
    requires Describes(tree, file)
    requires Lookup(Lookup(tree.fields, "info").value.fields, "piece length") == Some(Int(i))
    ensures -INT32_MAX - 1 <= i <= INT32_MAX ==> file.pieceLength == i
    ensures (file.pieceLength - i) % 0x1_0000_0000 == 0
  {
    ToInt32Exact(i);
  }

  /** A torrent without a file list has one file, called as the torrent and as long as its length. */
  lemma {:induction false} SingleFile(tree: Value, file: TorrentFile)
    requires Describes(tree, file)
    ensures var info := Lookup(tree.fields, "info").value.fields;
      Lookup(info, "files").None? ==>
        && file.files == [File([file.name], file.length)]
        && Lookup(info, "length") == Some(Int(file.length)) && Lookup(info, "name") == Some(Str(file.name))
  {
    var info := Lookup(tree.fields, "info").value.fields;
    if Lookup(info, "files").None? {
      OneFileTotal(file.files[0]);
      assert file.files == [file.files[0]];
    }
  }

  lemma {:induction false} OneFileTotal(file: File)
    ensures TotalLength([file]) == file.length
  {
    assert [file][..0] == [];
  }

  /** With a positive piece length and a non-negative total, the piece count is the ceiling of their quotient. */
  lemma {:induction false} PiecesCountIsCeiling(tree: Value, file: TorrentFile)
    requires Describes(tree, file) && file.pieceLength > 0 && file.length >= 0
    ensures file.piecesCount >= 0
    ensures (file.piecesCount - 1) * file.pieceLength < file.length <= file.piecesCount * file.pieceLength
  {
    Ceiling(file.length, file.pieceLength);
  }

  lemma {:induction false} Ceiling(length: nat, size: nat)
    requires size > 0
    ensures Quotient(length + size - 1, size) >= 0
    ensures (Quotient(length + size - 1, size) - 1) * size < length <= Quotient(length + size - 1, size) * size
  {
    var total := length + size - 1;
    var q := total / size;
    assert total == size * q + total % size;
    assert (q - 1) * size == size * q - size;
  }

  predicate NonNegative(files: seq<File>) {
    forall k | 0 <= k < |files| :: files[k].length >= 0
  }

  function LengthsOf(files: seq<File>): (r: seq<nat>)
    requires NonNegative(files)
    ensures |r| == |files| && forall k | 0 <= k < |files| :: r[k] == files[k].length
  {
    if files == [] then [] else [files[0].length] + LengthsOf(files[1..])
  }

  lemma {:induction false} TotalAppend(lengths: seq<nat>, n: nat)
    ensures Layout.Total(lengths + [n]) == Layout.Total(lengths) + n
  {
    if lengths == [] {
      assert (lengths + [n])[1..] == [];
    } else {
      assert (lengths + [n])[1..] == lengths[1..] + [n];
      TotalAppend(lengths[1..], n);
    }
  }

  lemma {:induction false} LengthsSplit(files: seq<File>)
    requires NonNegative(files) && files != []
    ensures LengthsOf(files) == LengthsOf(files[..|files| - 1]) + [files[|files| - 1].length]
  {
  }

  lemma {:induction false} TotalsAgree(files: seq<File>)
    requires NonNegative(files)
    ensures Layout.Total(LengthsOf(files)) == TotalLength(files)
  {
    if files != [] {
      var front, last := files[..|files| - 1], files[|files| - 1];
      TotalsAgree(front);
      LengthsSplit(files);
      TotalAppend(LengthsOf(front), last.length);
    }
  }

  /** A loaded torrent with sensible lengths meets what the piece layout relies on. */
  lemma {:induction false} LoadedFits(tree: Value, file: TorrentFile)
    requires Describes(tree, file) && file.pieceLength > 0 && NonNegative(file.files)
    ensures file.piecesCount >= 0
    ensures Layout.Fits(Layout.Descriptor(LengthsOf(file.files), file.pieceLength, file.piecesCount))
  {
    TotalsAgree(file.files);
    PiecesCountIsCeiling(tree, file);
  }

  // ----- The info hash and the source text -----

  /** Where the value of the first entry with the key stands, for entries spelled from `at` on. */
  function Locate(entries: seq<Entry>, key: string, at: nat): Option<(nat, Tree)> {
    if entries == [] then None
    else if entries[0].key == key then Some((at + |SpellKey(entries[0])|, entries[0].value))
    else Locate(entries[1..], key, at + |SpellKey(entries[0])| + |Spell(entries[0].value)|)
  }

  /** The value of the first entry with the key. */
  function FirstWith(entries: seq<Entry>, key: string): Option<Tree> {
    if entries == [] then None
    else if entries[0].key == key then Some(entries[0].value)
    else FirstWith(entries[1..], key)
  }

  lemma {:induction false} LocateFirst(entries: seq<Entry>, key: string, at: nat)
    ensures var found := Locate(entries, key, at);
      FirstWith(entries, key) == if found.None? then None else Some(found.value.1)
  {
    if entries != [] {
      LocateFirst(entries[1..], key, at + |SpellKey(entries[0])| + |Spell(entries[0].value)|);
    }
  }

  function MeaningOf(t: Option<Tree>): Option<Value> {
    if t.None? then None else Some(Meaning(t.value))
  }

  lemma {:induction false} LookupCons(f: Field, rest: seq<Field>, key: string)
    ensures Lookup([f] + rest, key) == if f.key == key then Some(f.value) else Lookup(rest, key)
    ensures [] + rest == rest
  {
    assert ([f] + rest)[1..] == rest;
  }

  lemma {:induction false} LookupFields(entries: seq<Entry>, prev: Option<string>, key: string)
    requires entries != [] && prev != Some(key)
    ensures Lookup(FieldsOf(entries, prev), key) ==
            if entries[0].key == key then Some(Meaning(entries[0].value))
            else Lookup(FieldsOf(entries[1..], Some(entries[0].key)), key)
  {
    var e := entries[0];
    LookupCons(Field(e.key, Meaning(e.value)), FieldsOf(entries[1..], Some(e.key)), key);
  }

  lemma {:induction false} LookupFirst(entries: seq<Entry>, prev: Option<string>, key: string)
    requires prev != Some(key)
    ensures Lookup(FieldsOf(entries, prev), key) == MeaningOf(FirstWith(entries, key))
  {
    if entries != [] {
      LookupFields(entries, prev, key);
      if entries[0].key != key {
        LookupFirst(entries[1..], Some(entries[0].key), key);
      }
    }
  }

  /** Looking a key up in the decoded map finds the value of its first entry in the text. */
  lemma {:induction false} LookupLocates(entries: seq<Entry>, key: string, at: nat)
    ensures var found := Locate(entries, key, at);
      Lookup(FieldsOf(entries, None), key) == if found.None? then None else Some(Meaning(found.value.1))
  {
    LookupFirst(entries, None, key);
    LocateFirst(entries, key, at);
  }

  /** The located value is spelled at the located position, with room behind it. */
  lemma {:induction false} LocatedStands(s: string, entries: seq<Entry>, key: string, at: nat)
    requires EntriesWellFormed(entries) && At(s, at, SpellEntries(entries)) && at + |SpellEntries(entries)| < |s|
    ensures var found := Locate(entries, key, at);
      found.Some? ==>
        WellFormed(found.value.1) && At(s, found.value.0, Spell(found.value.1)) &&
        found.value.0 + |Spell(found.value.1)| < |s|
  {
    if entries != [] {
      SpellEntriesAt(s, at, entries);
      if entries[0].key != key {
        LocatedStands(s, entries[1..], key, at + |SpellKey(entries[0])| + |Spell(entries[0].value)|);
      }
    }
  }

  lemma {:induction false} LocatedCanonical(entries: seq<Entry>, prev: Option<string>, key: string, at: nat)
    requires EntriesCanonical(entries, prev)
    ensures var found := Locate(entries, key, at);
      found.Some? ==> Canonical(found.value.1)
  {
    if entries != [] && entries[0].key != key {
      LocatedCanonical(entries[1..], Some(entries[0].key), key,
        at + |SpellKey(entries[0])| + |Spell(entries[0].value)|);
    }
  }

  /** The syntax tree the parser recognised in an accepted text. */
  function Recognised(s: string): Tree
    requires Decode(s).Ok?
  {
    Scan.Scan(s, 0).out.value
  }

  lemma {:induction false} InfoStands(s: string)
    requires Decode(s).Ok? && Recognised(s).TDict?
    ensures var found := Locate(Recognised(s).entries, "info", 1);
      found.Some? ==>
        WellFormed(found.value.1) && At(s, found.value.0, Spell(found.value.1)) &&
        found.value.0 + |Spell(found.value.1)| < |s|
  {
    var t := Recognised(s);
    ScanSound(s, 0);
    AtAppend(s, 0, "d" + SpellEntries(t.entries), "e");
    AtAppend(s, 0, "d", SpellEntries(t.entries));
    LocatedStands(s, t.entries, "info", 1);
  }

  /**
   The bytes hashed for `info` are the source substring the parser consumed for
   the first `info` value exactly when that substring is canonical.
   */
  lemma {:induction false} InfoBytesExact(s: string, tree: Value, infoBytes: string) returns (at: nat, info: Tree)
    requires Decode(s) == Ok(tree) && InfoBytes(tree) == Done(infoBytes)
    ensures Recognised(s).TDict? && Locate(Recognised(s).entries, "info", 1) == Some((at, info))
    ensures at + |Spell(info)| <= |s| && Scan.Scan(s, at) == Step(Ok(info), at + |Spell(info)|)
    ensures infoBytes == Encode(Meaning(info))
    ensures infoBytes == s[at..at + |Spell(info)|] <==> Canonical(info)
  {
    var t := Recognised(s);
    LookupLocates(t.entries, "info", 1);
    var found := Locate(t.entries, "info", 1);
    at, info := found.value.0, found.value.1;
    InfoStands(s);
    ReadBack(s, at, info);
    PrintNormalises(info);
  }

  /** What is spelled before the end of a text is read back from there. */
  lemma {:induction false} ReadBack(s: string, at: nat, t: Tree)
    requires WellFormed(t) && At(s, at, Spell(t)) && at + |Spell(t)| < |s|
    ensures Scan.Scan(s, at) == Step(Ok(t), at + |Spell(t)|) && s[at..at + |Spell(t)|] == Spell(t)
  {
    StringRoom(t);
    ScanComplete(s, at, t);
  }

  /** In a canonical metainfo text the hashed bytes are always the source bytes. */
  lemma {:induction false} InfoBytesOfCanonicalText(s: string, tree: Value, infoBytes: string)
    returns (at: nat, info: Tree)
    requires Decode(s) == Ok(tree) && InfoBytes(tree) == Done(infoBytes) && CanonicalText(s)
    ensures at + |Spell(info)| <= |s| && Scan.Scan(s, at) == Step(Ok(info), at + |Spell(info)|)
    ensures infoBytes == s[at..at + |Spell(info)|]
  {
    at, info := InfoBytesExact(s, tree, infoBytes);
    var t := Recognised(s);
    var u :| WellFormed(u) && Spell(u) == s && Canonical(u);
    ScanSound(s, 0);
    assert Spell(t) == s by {
      assert s[0..|s|] == s;
    }
    assert Spell(t) + "" == Spell(u) + "";
    UniqueSpelling(t, "", u, "");
    LocatedCanonical(t.entries, None, "info", 1);
  }

  /** Two accepted texts whose info values mean the same are hashed over the same bytes, however they are spelled. */
  lemma {:induction false} InfoBytesIgnoreSpelling(tree: Value, other: Value, infoBytes: string, otherBytes: string)
    requires Valid(tree) && Valid(other)
    requires InfoBytes(tree) == Done(infoBytes) && InfoBytes(other) == Done(otherBytes)
    ensures infoBytes == otherBytes <==> Lookup(tree.fields, "info") == Lookup(other.fields, "info")
  {
    var v := Lookup(tree.fields, "info").value;
    var w := Lookup(other.fields, "info").value;
    FieldValid(tree.fields, "info");
    FieldValid(other.fields, "info");
    if infoBytes == otherBytes {
      assert Encode(v) + "" == Encode(w) + "";
      UniqueReadability(v, "", w, "");
    }
  }

  lemma {:induction false} FieldValid(fields: seq<Field>, key: string)
    requires AllFieldsValid(fields)
    ensures Lookup(fields, key).Some? ==> Valid(Lookup(fields, key).value)
  {
    if fields != [] && fields[0].key != key {
      FieldValid(fields[1..], key);
    }
  }
}
