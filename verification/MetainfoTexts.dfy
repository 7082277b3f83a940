/**
 The metainfo text of a torrent: the dictionary with the keys of the BitTorrent
 metainfo format, as a tree and as bytes. Reading it gives the torrent back.
 */
module MetainfoTexts {
  import opened Decimal
  import opened Options
  import opened Bencode
  import opened Scan
  import opened BencodeTheorems
  import opened Metainfo

  // ----- The tree of a torrent -----

  function PathNodes(path: seq<string>): (r: seq<Value>)
    ensures |r| == |path| && forall k | 0 <= k < |path| :: r[k] == Str(path[k])
  {
    seq(|path|, k requires 0 <= k < |path| => Str(path[k]))
  }

  function FileNode(file: File): Value {
    Dict([Field("length", Int(file.length)), Field("path", List(PathNodes(file.filepath)))])
  }

  function FileNodes(files: seq<File>): (r: seq<Value>)
    ensures |r| == |files| && forall k | 0 <= k < |files| :: r[k] == FileNode(files[k])
  {
    seq(|files|, k requires 0 <= k < |files| => FileNode(files[k]))
  }

  function Joined(hashes: seq<string>): string {
    if hashes == [] then "" else Joined(hashes[..|hashes| - 1]) + hashes[|hashes| - 1]
  }

  /** A torrent of one file may give its length instead of a list. */
  function Listing(file: TorrentFile, alone: bool): Field {
    if alone then Field("length", Int(file.length)) else Field("files", List(FileNodes(file.files)))
  }

  function InfoFields(file: TorrentFile, alone: bool): seq<Field> {
    [Listing(file, alone), Field("name", Str(file.name)), Field("piece length", Int(file.pieceLength)),
     Field("pieces", Str(Joined(file.pieceHashes)))]
  }

  function MetaTree(file: TorrentFile, alone: bool): Value {
    Dict([Field("announce", Str(file.announceUrl)), Field("info", Dict(InfoFields(file, alone)))])
  }

  /** What has to agree within a torrent. */
  predicate Consistent(file: TorrentFile, alone: bool) {
    && -0x8000_0000 <= file.pieceLength <= 0x7FFF_FFFF && file.pieceLength != 0
    && file.length == TotalLength(file.files)
    && (alone ==> file.files == [File([file.name], file.length)])
    && file.piecesCount == |file.pieceHashes| == Quotient(file.length + file.pieceLength - 1, file.pieceLength)
    && (forall k | 0 <= k < |file.pieceHashes| :: |file.pieceHashes[k]| == 20)
    && file.infoBytes == Encode(Dict(InfoFields(file, alone))) && |file.infoBytes| <= 0x7FFF_FFFF
  }

  // ----- Looking up -----

  lemma {:induction false} LookupIn(fields: seq<Field>, k: nat)
    requires k < |fields| && forall j | 0 <= j < k :: fields[j].key != fields[k].key
    ensures Lookup(fields, fields[k].key) == Some(fields[k].value)
  {
    if k > 0 {
      assert fields[0].key != fields[k].key;
      LookupIn(fields[1..], k - 1);
    }
  }

  lemma {:induction false} MetaLookups(file: TorrentFile, alone: bool)
    ensures var fields := MetaTree(file, alone).fields;
      && Lookup(fields, "announce") == Some(Str(file.announceUrl))
      && Lookup(fields, "info") == Some(Dict(InfoFields(file, alone)))
  {
    var fields := MetaTree(file, alone).fields;
    LookupIn(fields, 0);
    LookupIn(fields, 1);
  }

  lemma {:induction false} LookupOut(fields: seq<Field>, key: string)
    requires forall j | 0 <= j < |fields| :: fields[j].key != key
    ensures Lookup(fields, key) == None
  {
  }

  lemma {:induction false} FourLookups(a: Field, b: Field, c: Field, d: Field)
    requires a.key != b.key && a.key != c.key && a.key != d.key && b.key != c.key && b.key != d.key && c.key != d.key
    ensures Lookup([a, b, c, d], a.key) == Some(a.value) && Lookup([a, b, c, d], b.key) == Some(b.value)
    ensures Lookup([a, b, c, d], c.key) == Some(c.value) && Lookup([a, b, c, d], d.key) == Some(d.value)
  {
    LookupIn([a, b, c, d], 0);
    LookupIn([a, b, c, d], 1);
    LookupIn([a, b, c, d], 2);
    LookupIn([a, b, c, d], 3);
  }

  lemma {:induction false} NotAmongFour(a: Field, b: Field, c: Field, d: Field, key: string)
    requires a.key != key && b.key != key && c.key != key && d.key != key
    ensures Lookup([a, b, c, d], key) == None
  {
    LookupOut([a, b, c, d], key);
  }

  lemma {:induction false} InfoLookups(file: TorrentFile, alone: bool)
    ensures var info := InfoFields(file, alone);
      && Lookup(info, "name") == Some(Str(file.name))
      && Lookup(info, "piece length") == Some(Int(file.pieceLength))
      && Lookup(info, "pieces") == Some(Str(Joined(file.pieceHashes)))
      && Lookup(info, "files") == (if alone then None else Some(List(FileNodes(file.files))))
      && (alone ==> Lookup(info, "length") == Some(Int(file.length)))
  {
    var first, name := Listing(file, alone), Field("name", Str(file.name));
    var size, hashes := Field("piece length", Int(file.pieceLength)), Field("pieces", Str(Joined(file.pieceHashes)));
    assert InfoFields(file, alone) == [first, name, size, hashes];
    FourLookups(first, name, size, hashes);
    if alone {
      NotAmongFour(first, name, size, hashes, "files");
    }
  }

  lemma {:induction false} NodeNames(file: File)
    ensures NamesFile(FileNode(file), file)
  {
    var fields := FileNode(file).fields;
    LookupIn(fields, 0);
    LookupIn(fields, 1);
  }

  // ----- The hashes -----

  lemma {:induction false} SliceOfFirst(a: string, b: string, i: nat, j: nat)
    requires i <= j <= |a|
    ensures (a + b)[i..j] == a[i..j]
  {
  }

  lemma {:induction false} SplitsMore(pieces: string, hashes: seq<string>, hash: string)
    requires Splits(pieces, hashes) && |hash| == 20
    ensures Splits(pieces + hash, hashes + [hash])
  {
    var n := |hashes|;
    assert (pieces + hash)[|pieces|..] == hash;
    forall k | 0 <= k < n
      ensures hashes[k] == (pieces + hash)[20 * k..20 * k + 20]
    {
      SliceOfFirst(pieces, hash, 20 * k, 20 * k + 20);
    }
  }

  lemma {:induction false} JoinedSplits(hashes: seq<string>)
    requires forall k | 0 <= k < |hashes| :: |hashes[k]| == 20
    ensures Splits(Joined(hashes), hashes)
  {
    if hashes != [] {
      var n := |hashes| - 1;
      JoinedSplits(hashes[..n]);
      SplitsMore(Joined(hashes[..n]), hashes[..n], hashes[n]);
      assert hashes[..n] + [hashes[n]] == hashes;
    }
  }

  lemma {:induction false} SplitLengths(pieces: string, hashes: seq<string>, k: nat)
    requires Splits(pieces, hashes) && k < |hashes|
    ensures |hashes[k]| == 20
  {
  }

  // ----- Reading the tree -----

  lemma {:induction false} NodesNamed(files: seq<File>, k: nat)
    requires k < |files|
    ensures NamesFile(FileNodes(files)[k], files[k])
  {
    NodeNames(files[k]);
  }

  lemma {:induction false} OneNamed(files: seq<File>, name: string, length: int)
    requires length == TotalLength(files)
    ensures |files| == 1 && files[0].filepath == [name] && files[0].length == length <==>
            files == [File([name], length)]
  {
    if |files| == 1 {
      assert files == [files[0]];
    }
  }

  lemma {:induction false} TreeLists(file: TorrentFile, alone: bool)
    requires file.length == TotalLength(file.files)
    ensures Lists(InfoFields(file, alone), file.name, file.files) <==>
            (alone ==> file.files == [File([file.name], file.length)])
  {
    InfoLookups(file, alone);
    if alone {
      OneNamed(file.files, file.name, file.length);
    } else {
      forall k | 0 <= k < |file.files|
        ensures NamesFile(FileNodes(file.files)[k], file.files[k])
      {
        NodesNamed(file.files, k);
      }
    }
  }

  lemma {:induction false} ConsistentDescribes(file: TorrentFile, alone: bool)
    requires Consistent(file, alone)
    ensures DescribesInfo(InfoFields(file, alone), file)
  {
    InfoLookups(file, alone);
    ToInt32Exact(file.pieceLength);
    TreeLists(file, alone);
    JoinedSplits(file.pieceHashes);
  }

  lemma {:induction false} DescribedConsistent(file: TorrentFile, alone: bool)
    requires DescribesInfo(InfoFields(file, alone), file)
    requires file.infoBytes == Encode(Dict(InfoFields(file, alone))) && |file.infoBytes| <= 0x7FFF_FFFF
    ensures Consistent(file, alone)
  {
    InfoLookups(file, alone);
    TreeLists(file, alone);
    forall k | 0 <= k < |file.pieceHashes|
      ensures |file.pieceHashes[k]| == 20
    {
      SplitLengths(Joined(file.pieceHashes), file.pieceHashes, k);
    }
  }

  lemma {:induction false} MetaDescribes(file: TorrentFile, alone: bool)
    ensures Describes(MetaTree(file, alone), file) <==>
            DescribesInfo(InfoFields(file, alone), file) &&
            file.infoBytes == Encode(Dict(InfoFields(file, alone))) && |file.infoBytes| <= 0x7FFF_FFFF
  {
    MetaLookups(file, alone);
  }

  /** The tree of a torrent describes that torrent exactly if the torrent is consistent. */
  lemma {:induction false} TreeDescribes(file: TorrentFile, alone: bool)
    ensures Describes(MetaTree(file, alone), file) <==> Consistent(file, alone)
  {
    MetaDescribes(file, alone);
    if Consistent(file, alone) {
      ConsistentDescribes(file, alone);
    } else if Describes(MetaTree(file, alone), file) {
      DescribedConsistent(file, alone);
    }
  }

  // ----- Reading the text -----

  /** What the C++ types can hold. */
  predicate Storable(file: TorrentFile) {
    && |file.announceUrl| <= INT64_MAX && |file.name| <= INT64_MAX && |Joined(file.pieceHashes)| <= INT64_MAX
    && INT64_MIN <= file.length <= INT64_MAX && INT64_MIN <= file.pieceLength <= INT64_MAX
    && forall k | 0 <= k < |file.files| :: StorableFile(file.files[k])
  }

  predicate StorableFile(file: File) {
    && INT64_MIN <= file.length <= INT64_MAX
    && forall k | 0 <= k < |file.filepath| :: |file.filepath[k]| <= INT64_MAX
  }

  lemma {:induction false} AllAreValid(items: seq<Value>)
    requires forall k | 0 <= k < |items| :: Valid(items[k])
    ensures AllValid(items)
  {
    if items != [] {
      AllAreValid(items[1..]);
    }
  }

  lemma {:induction false} AllFieldsAreValid(fields: seq<Field>)
    requires forall k | 0 <= k < |fields| :: |fields[k].key| <= INT64_MAX && Valid(fields[k].value)
    ensures AllFieldsValid(fields)
  {
    if fields != [] {
      AllFieldsAreValid(fields[1..]);
    }
  }

  /** The first letters tell, or the letters behind a common start. */
  lemma {:induction false} KeyOrder()
    ensures Less("announce", "info") && Less("length", "path") && Less("files", "name") && Less("length", "name")
    ensures Less("name", "piece length") && Less("piece length", "pieces")
    ensures Less("files", "piece length") && Less("length", "piece length")
    ensures Less("files", "pieces") && Less("length", "pieces") && Less("name", "pieces")
  {
    assert SmallerAt("piece length", "pieces", 5);
    LessExact("piece length", "pieces");
  }

  lemma {:induction false} TwoFields(a: Field, b: Field)
    requires Less(a.key, b.key) && |a.key| <= INT64_MAX && |b.key| <= INT64_MAX && Valid(a.value) && Valid(b.value)
    ensures Valid(Dict([a, b]))
  {
    AllFieldsAreValid([a, b]);
  }

  lemma {:induction false} NodeValid(file: File)
    requires StorableFile(file)
    ensures Valid(FileNode(file))
  {
    KeyOrder();
    AllAreValid(PathNodes(file.filepath));
    TwoFields(Field("length", Int(file.length)), Field("path", List(PathNodes(file.filepath))));
  }

  lemma {:induction false} ListingValid(file: TorrentFile, alone: bool)
    requires Storable(file)
    ensures Valid(Listing(file, alone).value)
  {
    forall k | 0 <= k < |file.files|
      ensures Valid(FileNodes(file.files)[k])
    {
      NodeValid(file.files[k]);
    }
    AllAreValid(FileNodes(file.files));
  }

  lemma {:induction false} FourSorted(fields: seq<Field>)
    requires |fields| == 4
    requires Less(fields[0].key, fields[1].key) && Less(fields[0].key, fields[2].key)
    requires Less(fields[0].key, fields[3].key) && Less(fields[1].key, fields[2].key)
    requires Less(fields[1].key, fields[3].key) && Less(fields[2].key, fields[3].key)
    ensures StrictlySorted(fields)
  {
  }

  lemma {:induction false} InfoSorted(file: TorrentFile, alone: bool)
    ensures StrictlySorted(InfoFields(file, alone))
  {
    KeyOrder();
    FourSorted(InfoFields(file, alone));
  }

  lemma {:induction false} InfoValid(file: TorrentFile, alone: bool)
    requires Storable(file)
    ensures Valid(Dict(InfoFields(file, alone)))
  {
    InfoSorted(file, alone);
    ListingValid(file, alone);
    AllFieldsAreValid(InfoFields(file, alone));
  }

  lemma {:induction false} MetaValid(file: TorrentFile, alone: bool)
    requires Storable(file)
    ensures Valid(MetaTree(file, alone))
  {
    KeyOrder();
    InfoValid(file, alone);
    TwoFields(Field("announce", Str(file.announceUrl)), Field("info", Dict(InfoFields(file, alone))));
  }

  /**
   The metainfo text of a consistent torrent decodes to a tree that describes that
   torrent and no other, whether its only file is listed or given by its length.
   */
  lemma {:induction false} MetainfoRoundTrip(file: TorrentFile, alone: bool, other: TorrentFile)
    requires Storable(file) && Consistent(file, alone) && |Encode(MetaTree(file, alone))| <= INT64_MAX
    ensures var read := Decode(Encode(MetaTree(file, alone)));
      read.Ok? && (Describes(read.value, other) <==> other == file)
  {
    MetaValid(file, alone);
    RoundTrip(MetaTree(file, alone));
    TreeDescribes(file, alone);
    if Describes(MetaTree(file, alone), other) {
      DescribesOne(MetaTree(file, alone), file, other);
    }
  }
}
