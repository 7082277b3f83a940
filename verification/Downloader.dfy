/**
 The downloader as the program runs it: an object that is choked or not, knows
 the bitfield of its peer, and fills a piece buffer in place. Each method is
 proved to do what `Download` says a run does.
 */
module Downloaders {
  import opened Octets
  import opened Options
  import opened Bitfields
  import opened Wire
  import opened Download
  import Layout

  /** A whole call of `try_download` on an established connection. */
  function Attempt(piecesCount: int, pieceLength: nat, length: nat, index: int, verify: seq<Octet> -> bool, s: State):
    (Outcome, State)
  {
    if piecesCount <= 0 || index < 0 || index >= piecesCount then (Thrown, s)
    else if index >= |s.have| then (Overrun, s)
    else if !s.have[index] then (Failed(MissingPiece), s)
    else
      var size := Layout.PieceLength(length, pieceLength, piecesCount, index);
      if size <= 0 then (Thrown, s)
      else Run(Plan(index, size), verify, s.(requested := 0, received := 0, buffer := Zeros(size)))
  }

  /** A downloaded piece was offered by the peer, has exactly the length the layout gives it, and passes the check. */
  lemma {:induction false} DownloadedExact(t: Layout.Descriptor, index: nat, verify: seq<Octet> -> bool, s: State)
    requires Layout.Fits(t) && index < t.count && s.log == []
    ensures var (out, end) := Attempt(t.count, t.pieceLength, Layout.Total(t.lengths), index, verify, s);
      out.Done? ==> index < |s.have| && s.have[index] && |out.content| == Layout.WantAt(t, index) && verify(out.content)
  {
    var size := Layout.WantAt(t, index);
    var p := Plan(index, size);
    RunSafe(p, verify, s.(requested := 0, received := 0, buffer := Zeros(size)));
  }

  /** What is refused before anything is requested, and how. */
  lemma {:induction false} AttemptRefused(piecesCount: int, pieceLength: nat, length: nat, index: int,
                                          verify: seq<Octet> -> bool, s: State)
    ensures var out := Attempt(piecesCount, pieceLength, length, index, verify, s).0;
      && (!(0 <= index < piecesCount) ==> out == Thrown)
      && (0 <= index < piecesCount && index < |s.have| && !s.have[index] ==> out == Failed(MissingPiece))
      && (0 <= index < piecesCount && |s.have| <= index ==> out == Overrun)
  {
  }

  /** A call either leaves everything as it was or is a run on the piece it is called for. */
  lemma {:induction false} AttemptRuns(piecesCount: nat, pieceLength: nat, length: nat, index: nat,
                                       verify: seq<Octet> -> bool, s: State)
    ensures var end := Attempt(piecesCount, pieceLength, length, index, verify, s).1;
      var size := Layout.PieceLength(length, pieceLength, piecesCount, index);
      || end == s
      || (0 < size && end == Run(Plan(index, size), verify, s.(requested := 0, received := 0, buffer := Zeros(size))).1)
  {
  }

  /** Whatever happens in a call, it asks only for blocks of the piece it is called for, within its length. */
  lemma {:induction false} AttemptRequests(piecesCount: nat, pieceLength: nat, length: nat, index: nat,
                                           verify: seq<Octet> -> bool, s: State, i: nat)
    requires s.log == []
    requires i < |Requests(Attempt(piecesCount, pieceLength, length, index, verify, s).1.log)|
    ensures var m := Requests(Attempt(piecesCount, pieceLength, length, index, verify, s).1.log)[i];
      && m.Request? && m.index == index && 0 <= m.begin && 0 < m.length <= 16384
      && m.begin + m.length <= Layout.PieceLength(length, pieceLength, piecesCount, index)
  {
    var size := Layout.PieceLength(length, pieceLength, piecesCount, index);
    AttemptRuns(piecesCount, pieceLength, length, index, verify, s);
    if 0 < size {
      var p, start := Plan(index, size), s.(requested := 0, received := 0, buffer := Zeros(size));
      if Attempt(piecesCount, pieceLength, length, index, verify, s).1 == Run(p, verify, start).1 {
        RequestInPiece(p, verify, start, i);
      }
    }
  }

  lemma {:induction false} CopyStep(buffer: seq<Octet>, begin: nat, block: seq<Octet>, i: nat)
    requires begin + |block| <= |buffer| && i < |block|
    ensures CopyInto(buffer, begin, block[..i + 1]) == CopyInto(buffer, begin, block[..i])[begin + i := block[i]]
  {
    assert block[..i + 1] == block[..i] + [block[i]];
  }

  /** `std::copy` of a block into the piece buffer. */
  method CopyBlock(piece: array<Octet>, begin: nat, block: seq<Octet>)
    requires begin + |block| <= piece.Length
    modifies piece
    ensures piece[..] == CopyInto(old(piece[..]), begin, block)
  {
    ghost var was := piece[..];
    assert CopyInto(was, begin, block[..0]) == was;
    for i := 0 to |block|
      invariant piece[..] == CopyInto(was, begin, block[..i])
    {
      CopyStep(was, begin, block, i);
      piece[begin + i] := block[i];
    }
    assert block[..|block|] == block;
  }

  class Downloader {
    const piecesCount: int
    const pieceLength: nat
    const length: nat
    const bitfield: Bitfield
    var choked: bool
    var inbox: seq<Incoming>
    var writes: nat
    const writeError: DownloaderError
    var open: bool
    ghost var log: seq<Event>

    predicate Valid() {
      bitfield.len == piecesCount
    }

    /** How many of the peer's bits there are: one per piece, unless its message was shorter. */
    ghost function Extent(): (n: nat)
      ensures n <= 8 * bitfield.storage.Length
    {
      if piecesCount < 0 then 0
      else if piecesCount <= 8 * bitfield.storage.Length then piecesCount
      else 8 * bitfield.storage.Length
    }

    ghost function Offered(): (r: seq<bool>)
      reads bitfield.storage
      ensures |r| == Extent()
    {
      BitsOf(bitfield.storage[..])[..Extent()]
    }

    /** The state of a run, given its counters and buffer. */
    ghost function View(requested: nat, received: nat, buffer: seq<Octet>): State
      reads this, bitfield.storage
    {
      State(choked, piecesCount, Offered(), requested, received, buffer, inbox, writes, writeError, log)
    }

    constructor (piecesCount: int, pieceLength: nat, length: nat, bitfield: Bitfield, inbox: seq<Incoming>, writes: nat,
                 writeError: DownloaderError)
      requires bitfield.len == piecesCount
      ensures Valid() && choked && open && log == []
      ensures this.piecesCount == piecesCount && this.pieceLength == pieceLength && this.length == length
      ensures this.bitfield == bitfield && this.inbox == inbox && this.writes == writes && this.writeError == writeError
    {
      this.piecesCount, this.pieceLength, this.length := piecesCount, pieceLength, length;
      this.bitfield := bitfield;
      this.inbox, this.writes, this.writeError := inbox, writes, writeError;
      choked, open := true, true;
      log := [];
    }

    /** `send_message`: a message the encoder refuses throws; a failed write destroys the socket. */
    method SendMessage(m: Message) returns (r: Sending)
      modifies this`writes, this`log, this`open
      ensures r == if !Encodable(m) then EncodingThrows else if old(writes) == 0 then WriteFailed else AllSent
      ensures r == AllSent ==> writes == old(writes) - 1 && log == old(log) + [Sent(m)]
      ensures r != AllSent ==> writes == old(writes) && log == old(log)
      ensures open == (old(open) && r != WriteFailed)
    {
      if !Encodable(m) {
        return EncodingThrows;
      }
      if writes == 0 {
        open := false;
        return WriteFailed;
      }
      writes := writes - 1;
      log := log + [Sent(m)];
      return AllSent;
    }

    /** `recv_message`: every failure destroys the socket. */
    method RecvMessage() returns (r: Incoming)
      modifies this`inbox, this`open
      ensures old(inbox) == [] ==> r == Fails(SocketTimeout) && inbox == []
      ensures old(inbox) != [] ==> r == old(inbox)[0] && inbox == old(inbox)[1..]
      ensures open == (old(open) && r.Arrives?)
    {
      if inbox == [] {
        open := false;
        return Fails(SocketTimeout);
      }
      r := inbox[0];
      inbox := inbox[1..];
      if r.Fails? {
        open := false;
      }
    }

    /** The end of `ensure_connected`: every connection starts choked, and only an Unchoke ends the wait. */
    method AwaitUnchoke() returns (ok: bool)
      modifies this`choked, this`inbox, this`open
      ensures ok <==> !choked
      ensures open == (old(open) && ok)
      ensures ok <==> exists k :: 0 <= k < |old(inbox)| && old(inbox)[k] == Arrives(Unchoke) &&
                                  forall j | 0 <= j < k :: old(inbox)[j].Arrives?
      ensures ok ==> exists k :: 0 <= k < |old(inbox)| && old(inbox)[k] == Arrives(Unchoke) &&
                                 inbox == old(inbox)[k + 1..] && Arrives(Unchoke) !in old(inbox)[..k]
      ensures !ok ==> (inbox == [] && forall j | 0 <= j < |old(inbox)| :: old(inbox)[j].Arrives?) ||
                      exists k :: 0 <= k < |old(inbox)| && old(inbox)[k].Fails? && inbox == old(inbox)[k + 1..] &&
                                  forall j | 0 <= j < k :: old(inbox)[j].Arrives?
    {
      choked := true;
      ghost var k := 0;
      while choked
        invariant k <= |old(inbox)| && inbox == old(inbox)[k..]
        invariant choked ==> forall j | 0 <= j < k :: old(inbox)[j].Arrives? && old(inbox)[j] != Arrives(Unchoke)
        invariant !choked ==> k > 0 && old(inbox)[k - 1] == Arrives(Unchoke) &&
                              forall j | 0 <= j < k - 1 :: old(inbox)[j].Arrives? && old(inbox)[j] != Arrives(Unchoke)
        invariant open == old(open)
        decreases choked, |inbox|
      {
        var incoming := RecvMessage();
        if incoming.Fails? {
          return false;
        }
        k := k + 1;
        if incoming.message == Unchoke {
          choked := false;
        }
      }
      return true;
    }

    /** One request of the inner loop. */
    method SendBlock(p: Plan, requested: nat, ghost received: nat, ghost buffer: seq<Octet>) returns (r: Sending)
      requires requested < BlocksTotal(p)
      modifies this`writes, this`log, this`open
      ensures r == if !Encodable(BlockRequest(p, requested)) then EncodingThrows
                   else if old(writes) == 0 then WriteFailed else AllSent
      ensures r == AllSent ==>
        View(requested + 1, received, buffer) == SendOne(p, old(View(requested, received, buffer)))
      ensures r != AllSent ==> View(requested, received, buffer) == old(View(requested, received, buffer))
      ensures open == (old(open) && r != WriteFailed)
    {
      var blockLength: int := BLOCK_SIZE;
      if requested == BlocksTotal(p) - 1 {
        blockLength := p.pieceLength - requested * BLOCK_SIZE;
      }
      var offset := requested * BLOCK_SIZE;
      assert Request(p.index, offset, blockLength) == BlockRequest(p, requested);
      r := SendMessage(Request(p.index, offset, blockLength));
    }

    /** The inner loop of `try_download`. */
    method SendPipeline(p: Plan, start: nat, received: nat, ghost buffer: seq<Octet>)
      returns (requested: nat, r: Sending)
      modifies this`writes, this`log, this`open
      ensures (View(requested, received, buffer), r) == SendRequests(p, old(View(start, received, buffer)))
      ensures open == (old(open) && r != WriteFailed)
    {
      ghost var goal := SendRequests(p, View(start, received, buffer));
      requested := start;
      while requested - received < PIPELINE_SIZE_MAX && requested < BlocksTotal(p)
        invariant SendRequests(p, View(requested, received, buffer)) == goal
        invariant open == old(open)
        decreases BlocksTotal(p) - requested
      {
        SendRound(p, View(requested, received, buffer));
        r := SendBlock(p, requested, received, buffer);
        if r != AllSent {
          return;
        }
        requested := requested + 1;
      }
      SendRound(p, View(requested, received, buffer));
      r := AllSent;
    }

    /** The `switch` of `try_download`; `None` means the loop goes on. */
    method HandleMessage(m: Message, piece: array<Octet>, ghost requested: nat, start: nat)
      returns (received: nat, r: Option<Outcome>)
      requires Valid() && piece as object != this && piece as object != bitfield.storage
      modifies this`choked, this`log, piece, bitfield.storage
      ensures var before := old(View(requested, start, piece[..]));
        if Benign(before, m) then r == None && View(requested, received, piece[..]) == Handle(before, m)
        else r == Some(Stops(before, m)) && View(requested, received, piece[..]) == before
    {
      received := start;
      r := None;
      match m {
        case Choke => choked := true;
        case Unchoke => choked := false;
        case Have(index) =>
          var access := bitfield.Set(index, true);
          if access != Within {
            return received, Some(if access == Throws then Thrown else Overrun);
          }
          assert Offered() == old(Offered())[index := true];
        case PieceMessage(_, begin, block) =>
          if begin < 0 || begin + |block| > piece.Length {
            return received, Some(Overrun);
          }
          CopyBlock(piece, begin, block);
          received := received + 1;
        case _ =>
      }
      log := log + [Received(m)];
    }

    /** One turn of the outer loop of `try_download`; `None` means the loop goes on. */
    method TakeTurn(p: Plan, piece: array<Octet>, wasRequested: nat, wasReceived: nat)
      returns (requested: nat, received: nat, r: Option<Outcome>)
      requires Valid() && piece as object != this && piece as object != bitfield.storage
      modifies this, piece, bitfield.storage
      ensures (View(requested, received, piece[..]), r) == Turn(p, old(View(wasRequested, wasReceived, piece[..])))
      ensures open == (old(open) && !(r.Some? && r.value.Failed?))
    {
      requested, received := wasRequested, wasReceived;
      var sending := AllSent;
      if !choked {
        requested, sending := SendPipeline(p, requested, received, piece[..]);
      }
      if sending == EncodingThrows {
        return requested, received, Some(Thrown);
      }
      if sending == WriteFailed {
        return requested, received, Some(Failed(writeError));
      }
      var incoming := RecvMessage();
      if incoming.Fails? {
        return requested, received, Some(Failed(incoming.error));
      }
      received, r := HandleMessage(incoming.message, piece, requested, received);
    }

    /** The outer loop of `try_download` over a fresh buffer, and the check behind it. */
    method DownloadPiece(p: Plan, verify: seq<Octet> -> bool) returns (r: Outcome)
      requires Valid()
      modifies this, bitfield.storage
      ensures var (out, end) := Run(p, verify, old(View(0, 0, Zeros(p.pieceLength))));
        r == out && View(end.requested, end.received, end.buffer) == end
      ensures old(open) && !open ==> r.Failed?
      ensures r.Failed? && open ==> r.error == CorruptPiece
    {
      var piece := new Octet[p.pieceLength](_ => 0);
      var blocksTotal := (p.pieceLength + BLOCK_SIZE - 1) / BLOCK_SIZE;
      var requested: nat, received: nat := 0, 0;
      assert piece[..] == Zeros(p.pieceLength);
      ghost var start := View(0, 0, piece[..]);
      while received < blocksTotal
        invariant fresh(piece) && open == old(open)
        invariant Run(p, verify, View(requested, received, piece[..])) == Run(p, verify, start)
        decreases |inbox|
      {
        var stop;
        requested, received, stop := TakeTurn(p, piece, requested, received);
        if stop.Some? {
          return stop.value;
        }
      }
      if !verify(piece[..]) {
        return Failed(CorruptPiece);
      }
      return Done(piece[..]);
    }

    /** The length of a piece: the last one may be shorter. */
    method SizeOf(index: nat) returns (size: int)
      requires 0 < piecesCount
      ensures size == Layout.PieceLength(length, pieceLength, piecesCount, index)
    {
      size := pieceLength;
      if index == piecesCount - 1 {
        var beforeThisPiece := (piecesCount - 1) * pieceLength;
        size := length - beforeThisPiece;
      }
    }

    /** `try_download` on an established connection. */
    method TryDownload(index: int, verify: seq<Octet> -> bool) returns (r: Outcome)
      requires Valid()
      modifies this, bitfield.storage
      ensures var (out, end) := Attempt(piecesCount, pieceLength, length, index, verify, old(View(0, 0, [])));
        r == out && View(end.requested, end.received, end.buffer) == end
      ensures old(open) && !open ==> r.Failed?
      ensures r.Failed? && open ==> r.error == MissingPiece || r.error == CorruptPiece
    {
      if piecesCount <= 0 || index < 0 || index >= piecesCount {
        return Thrown;
      }
      var access, has := bitfield.Get(index);
      if access == Stray {
        return Overrun;
      }
      if !has {
        return Failed(MissingPiece);
      }
      assert has == Offered()[index];
      var size := SizeOf(index);
      if size <= 0 {
        return Thrown;
      }
      r := DownloadPiece(Plan(index, size), verify);
    }
  }
}
