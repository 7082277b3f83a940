/**
 Downloading one piece from one peer, as a function of everything the peer and
 the socket do: the messages that arrive, the read that fails, and the write
 after which writes fail.

 `log` records the messages sent and received, in order. SHA1 verification is a
 parameter. A block that does not fit the piece buffer ends the run: the
 program's copy is only modelled inside the buffer.
 */
module Download {
  import opened Octets
  import opened Options
  import opened Sequences
  import opened Wire

  const BLOCK_SIZE: nat := 16384
  const PIPELINE_SIZE_MAX: nat := 5

  datatype DownloaderError =
    | DifferentInfoHash | InvalidMessage | NoBitfield | MissingPiece | CorruptPiece | SocketTimeout | SocketOther

  datatype Outcome =
    | Done(content: seq<Octet>)
    | Failed(error: DownloaderError)
    | Thrown
    | Overrun

  datatype Event = Sent(message: Message) | Received(message: Message)

  datatype Incoming = Arrives(message: Message) | Fails(error: DownloaderError)

  /** The piece being downloaded: its index and its length in bytes. */
  datatype Plan = Plan(index: nat, pieceLength: nat)

  datatype State = State(
    choked: bool,
    pieces: int,
    have: seq<bool>,
    requested: nat,
    received: nat,
    buffer: seq<Octet>,
    inbox: seq<Incoming>,
    writes: nat,
    writeError: DownloaderError,
    log: seq<Event>)

  // ----- Blocks -----

  function BlocksTotal(p: Plan): nat {
    (p.pieceLength + BLOCK_SIZE - 1) / BLOCK_SIZE
  }

  function BlockLength(p: Plan, k: nat): int {
    if k == BlocksTotal(p) - 1 then p.pieceLength - k * BLOCK_SIZE else BLOCK_SIZE
  }

  function BlockRequest(p: Plan, k: nat): Message {
    Request(p.index, k * BLOCK_SIZE, BlockLength(p, k))
  }

  /**
   Blocks follow one another without gap or overlap, each of one to `BLOCK_SIZE`
   bytes, from 0 to the piece length.
   */
  lemma {:induction false} BlocksTile(p: Plan, k: nat)
    requires k < BlocksTotal(p)
    ensures 0 < BlockLength(p, k) <= BLOCK_SIZE
    ensures k * BLOCK_SIZE + BlockLength(p, k) ==
            if k + 1 < BlocksTotal(p) then (k + 1) * BLOCK_SIZE else p.pieceLength
    ensures k * BLOCK_SIZE + BlockLength(p, k) <= p.pieceLength
  {
  }

  // ----- Runs -----

  datatype Sending = AllSent | WriteFailed | EncodingThrows

  function SendOne(p: Plan, s: State): State
    requires s.writes > 0
  {
    s.(requested := s.requested + 1, writes := s.writes - 1, log := s.log + [Sent(BlockRequest(p, s.requested))])
  }

  /** The inner loop: request blocks while the pipeline has room. */
  function SendRequests(p: Plan, s: State): (r: (State, Sending))
    ensures r.0.inbox == s.inbox
    decreases BlocksTotal(p) - s.requested
  {
    if s.requested - s.received < PIPELINE_SIZE_MAX && s.requested < BlocksTotal(p) then
      if !Encodable(BlockRequest(p, s.requested)) then (s, EncodingThrows)
      else if s.writes == 0 then (s, WriteFailed)
      else SendRequests(p, SendOne(p, s))
    else (s, AllSent)
  }

  /** One round of the sending loop: it ends, fails, or sends one request and goes on. */
  lemma {:induction false} SendRound(p: Plan, s: State)
    ensures var more := s.requested - s.received < PIPELINE_SIZE_MAX && s.requested < BlocksTotal(p);
      SendRequests(p, s) ==
      if !more then (s, AllSent)
      else if !Encodable(BlockRequest(p, s.requested)) then (s, EncodingThrows)
      else if s.writes == 0 then (s, WriteFailed)
      else SendRequests(p, SendOne(p, s))
  {
  }

  function CopyInto(buffer: seq<Octet>, begin: nat, block: seq<Octet>): (r: seq<Octet>)
    requires begin + |block| <= |buffer|
    ensures |r| == |buffer|
  {
    buffer[..begin] + block + buffer[begin + |block|..]
  }

  /** The message changes the state without an exception and inside the buffer. */
  predicate Benign(s: State, m: Message) {
    match m
    case Have(index) => 0 <= index < |s.have|
    case PieceMessage(_, begin, block) => 0 <= begin && begin + |block| <= |s.buffer|
    case _ => true
  }

  /**
   What a message that is not benign does: an index out of bounds throws, anything
   else leaves the memory it may use.
   */
  function Stops(s: State, m: Message): Outcome {
    if m.Have? && !(0 <= m.index < s.pieces) then Thrown else Overrun
  }

  /** The `switch` on the kind of a received message. */
  function Handle(s: State, m: Message): (r: State)
    requires Benign(s, m)
    ensures r.inbox == s.inbox
  {
    var logged := s.(log := s.log + [Received(m)]);
    match m
    case Choke => logged.(choked := true)
    case Unchoke => logged.(choked := false)
    case Have(index) => logged.(have := s.have[index := true])
    case PieceMessage(_, begin, block) =>
      logged.(buffer := CopyInto(s.buffer, begin, block), received := s.received + 1)
    case _ => logged
  }

  function Finish(verify: seq<Octet> -> bool, s: State): Outcome {
    if verify(s.buffer) then Done(s.buffer) else Failed(CorruptPiece)
  }

  /** Waiting for one message and acting on it. */
  function Listen(s: State): (r: (State, Option<Outcome>))
    ensures r.1.None? ==> |r.0.inbox| < |s.inbox|
  {
    if s.inbox == [] then (s, Some(Failed(SocketTimeout)))
    else
      var next := s.(inbox := s.inbox[1..]);
      match s.inbox[0]
      case Fails(e) => (next, Some(Failed(e)))
      case Arrives(m) =>
        if Benign(next, m) then (Handle(next, m), None) else (next, Some(Stops(next, m)))
  }

  /** Before waiting: top up the pipeline unless choked. */
  function TopUp(p: Plan, s: State): (State, Sending) {
    if s.choked then (s, AllSent) else SendRequests(p, s)
  }

  /** One turn of the outer loop: top up the pipeline unless choked, then wait for a message. */
  function Turn(p: Plan, s: State): (r: (State, Option<Outcome>))
    ensures r.1.None? ==> |r.0.inbox| < |s.inbox|
  {
    var (ready, sending) := TopUp(p, s);
    match sending
    case EncodingThrows => (ready, Some(Thrown))
    case WriteFailed => (ready, Some(Failed(s.writeError)))
    case AllSent => Listen(ready)
  }

  /** The outer loop and the digest check behind it. */
  function Run(p: Plan, verify: seq<Octet> -> bool, s: State): (Outcome, State)
    decreases |s.inbox|
  {
    if s.received >= BlocksTotal(p) then (Finish(verify, s), s)
    else
      var (next, end) := Turn(p, s);
      if end.Some? then (end.value, next) else Run(p, verify, next)
  }

  // ----- What the log shows -----

  function Requests(log: seq<Event>): seq<Message> {
    if log == [] then []
    else
      var e := log[|log| - 1];
      Requests(log[..|log| - 1]) + if e.Sent? then [e.message] else []
  }

  datatype Block = Block(begin: int, bytes: seq<Octet>)

  function Blocks(log: seq<Event>): seq<Block> {
    if log == [] then []
    else
      var e := log[|log| - 1];
      Blocks(log[..|log| - 1]) +
      if e.Received? && e.message.PieceMessage? then [Block(e.message.begin, e.message.block)] else []
  }

  /** Whether the peer chokes us after the log, given whether it did before. */
  predicate ChokedAfter(start: bool, log: seq<Event>) {
    if log == [] then start
    else
      match log[|log| - 1]
      case Received(Choke) => true
      case Received(Unchoke) => false
      case _ => ChokedAfter(start, log[..|log| - 1])
  }

  /** Requests in flight: sent and not yet answered by any block. */
  function Outstanding(log: seq<Event>): int {
    |Requests(log)| - |Blocks(log)|
  }

  /** Every request was sent unchoked and with room in the pipeline. */
  predicate Disciplined(start: bool, log: seq<Event>) {
    log == [] ||
    (Disciplined(start, log[..|log| - 1]) &&
     (log[|log| - 1].Sent? ==>
       !ChokedAfter(start, log[..|log| - 1]) && Outstanding(log[..|log| - 1]) < PIPELINE_SIZE_MAX))
  }

  /** The first `n` blocks of the piece, in order. */
  function FirstRequests(p: Plan, n: nat): (r: seq<Message>)
    ensures |r| == n
  {
    seq(n, k requires 0 <= k < n => BlockRequest(p, k))
  }

  predicate InBuffer(size: nat, blocks: seq<Block>) {
    forall i | 0 <= i < |blocks| :: 0 <= blocks[i].begin && blocks[i].begin + |blocks[i].bytes| <= size
  }

  /** The buffer after copying the blocks in, in order. */
  function Replay(buffer: seq<Octet>, blocks: seq<Block>): (r: seq<Octet>)
    requires InBuffer(|buffer|, blocks)
    ensures |r| == |buffer|
  {
    if blocks == [] then buffer
    else
      var b := blocks[|blocks| - 1];
      CopyInto(Replay(buffer, blocks[..|blocks| - 1]), b.begin, b.bytes)
  }

  /** What every point of a run keeps. */
  predicate Inv(p: Plan, start: State, s: State) {
    && |start.buffer| == p.pieceLength
    && s.requested <= BlocksTotal(p) && s.received <= BlocksTotal(p)
    && s.requested - s.received <= PIPELINE_SIZE_MAX
    && Requests(s.log) == FirstRequests(p, s.requested)
    && |Blocks(s.log)| == s.received
    && s.choked == ChokedAfter(start.choked, s.log)
    && Disciplined(start.choked, s.log)
    && InBuffer(p.pieceLength, Blocks(s.log))
    && s.buffer == Replay(start.buffer, Blocks(s.log))
  }

  /** A connection on which nothing has been asked for yet. */
  predicate Fresh(p: Plan, s: State) {
    s.requested == 0 && s.received == 0 && s.log == [] && |s.buffer| == p.pieceLength
  }

  /** What one more event does to the readings of the log. */
  lemma {:induction false} LogGrows(start: bool, log: seq<Event>, e: Event)
    ensures Requests(log + [e]) == if e.Sent? then Requests(log) + [e.message] else Requests(log)
    ensures Blocks(log + [e]) == if e.Received? && e.message.PieceMessage?
                                 then Blocks(log) + [Block(e.message.begin, e.message.block)] else Blocks(log)
    ensures ChokedAfter(start, log + [e]) ==
            if e == Received(Choke) then true else if e == Received(Unchoke) then false else ChokedAfter(start, log)
    ensures Disciplined(start, log + [e]) <==>
            Disciplined(start, log) && (e.Sent? ==> !ChokedAfter(start, log) && Outstanding(log) < PIPELINE_SIZE_MAX)
  {
    assert (log + [e])[..|log|] == log && (log + [e])[|log|] == e;
    assert Requests(log) + [] == Requests(log);
    assert Blocks(log) + [] == Blocks(log);
  }

  lemma {:induction false} FirstGrows(p: Plan, n: nat)
    ensures FirstRequests(p, n + 1) == FirstRequests(p, n) + [BlockRequest(p, n)]
  {
  }

  lemma {:induction false} OutstandingAt(p: Plan, log: seq<Event>, n: nat)
    requires Requests(log) == FirstRequests(p, n)
    ensures Outstanding(log) == n - |Blocks(log)|
  {
  }

  lemma {:induction false} SendOneInv(p: Plan, start: State, s: State)
    requires Inv(p, start, s) && s.writes > 0 && !s.choked
    requires s.requested - s.received < PIPELINE_SIZE_MAX && s.requested < BlocksTotal(p)
    ensures Inv(p, start, SendOne(p, s))
  {
    LogGrows(start.choked, s.log, Sent(BlockRequest(p, s.requested)));
    FirstGrows(p, s.requested);
    OutstandingAt(p, s.log, s.requested);
  }

  lemma {:induction false} SendRequestsInv(p: Plan, start: State, s: State)
    requires Inv(p, start, s) && !s.choked
    ensures Inv(p, start, SendRequests(p, s).0)
    ensures SendRequests(p, s).0.received == s.received
    decreases BlocksTotal(p) - s.requested
  {
    if s.requested - s.received < PIPELINE_SIZE_MAX && s.requested < BlocksTotal(p) &&
       Encodable(BlockRequest(p, s.requested)) && s.writes > 0 {
      SendOneInv(p, start, s);
      SendRequestsInv(p, start, SendOne(p, s));
    }
  }

  lemma {:induction false} ReplayGrows(buffer: seq<Octet>, blocks: seq<Block>, b: Block)
    requires InBuffer(|buffer|, blocks) && 0 <= b.begin && b.begin + |b.bytes| <= |buffer|
    ensures InBuffer(|buffer|, blocks + [b])
    ensures Replay(buffer, blocks + [b]) == CopyInto(Replay(buffer, blocks), b.begin, b.bytes)
  {
    assert (blocks + [b])[..|blocks|] == blocks;
  }

  lemma {:induction false} HandleInv(p: Plan, start: State, s: State, m: Message)
    requires Inv(p, start, s) && Benign(s, m) && s.received < BlocksTotal(p)
    ensures Inv(p, start, Handle(s, m))
  {
    LogGrows(start.choked, s.log, Received(m));
    if m.PieceMessage? {
      var blocks := Blocks(s.log);
      ReplayGrows(start.buffer, blocks, Block(m.begin, m.block));
    }
  }

  lemma {:induction false} ListenInv(p: Plan, start: State, s: State)
    requires Inv(p, start, s) && s.received < BlocksTotal(p)
    ensures Inv(p, start, Listen(s).0)
    ensures Listen(s).1.Some? ==> Listen(s).0.received == s.received && !Listen(s).1.value.Done?
  {
    if s.inbox != [] && s.inbox[0].Arrives? {
      var next := s.(inbox := s.inbox[1..]);
      if Benign(next, s.inbox[0].message) {
        HandleInv(p, start, next, s.inbox[0].message);
      }
    }
  }

  lemma {:induction false} TopUpInv(p: Plan, start: State, s: State)
    requires Inv(p, start, s)
    ensures Inv(p, start, TopUp(p, s).0) && TopUp(p, s).0.received == s.received
  {
    if !s.choked {
      SendRequestsInv(p, start, s);
    }
  }

  lemma {:induction false} TurnInv(p: Plan, start: State, s: State)
    requires Inv(p, start, s) && s.received < BlocksTotal(p)
    ensures Inv(p, start, Turn(p, s).0)
    ensures Turn(p, s).1.Some? ==> Turn(p, s).0.received == s.received && !Turn(p, s).1.value.Done?
  {
    TopUpInv(p, start, s);
    var (ready, sending) := TopUp(p, s);
    if sending == AllSent {
      ListenInv(p, start, ready);
    }
  }

  lemma {:induction false} RunInv(p: Plan, verify: seq<Octet> -> bool, start: State, s: State)
    requires Inv(p, start, s)
    ensures Inv(p, start, Run(p, verify, s).1)
    ensures Run(p, verify, s).1.received >= BlocksTotal(p) ==>
            Run(p, verify, s).0 == Finish(verify, Run(p, verify, s).1)
    ensures Run(p, verify, s).0.Done? ==> Run(p, verify, s).1.received >= BlocksTotal(p)
    decreases |s.inbox|
  {
    if s.received < BlocksTotal(p) {
      TurnInv(p, start, s);
      var turn := Turn(p, s);
      if turn.1.None? {
        RunInv(p, verify, start, turn.0);
      }
    }
  }

  // ----- Every run -----

  /**
   On every run, whatever the peer sends and wherever the socket fails: the
   requests sent are blocks 0, 1, 2, ... of the piece, each once; every one of
   them was sent unchoked and with fewer than five in flight; and a result has
   the exact length of the piece and passes the digest check.
   */
  lemma {:induction false} RunSafe(p: Plan, verify: seq<Octet> -> bool, s: State)
    requires Fresh(p, s)
    ensures var (out, end) := Run(p, verify, s);
      && end.requested <= BlocksTotal(p) && end.received <= BlocksTotal(p)
      && Requests(end.log) == FirstRequests(p, end.requested)
      && Disciplined(s.choked, end.log)
      && |Blocks(end.log)| == end.received
      && (out.Done? ==> |out.content| == p.pieceLength && verify(out.content) && end.received == BlocksTotal(p))
  {
    assert FirstRequests(p, 0) == [];
    RunInv(p, verify, s, s);
  }

  /** At every moment of a disciplined log at most five requests are in flight, and none is sent while choked. */
  lemma {:induction false} DisciplinedPrefix(start: bool, log: seq<Event>, k: nat)
    requires Disciplined(start, log) && k <= |log|
    ensures Disciplined(start, log[..k]) && Outstanding(log[..k]) <= 5
    ensures k < |log| && log[k].Sent? ==> !ChokedAfter(start, log[..k])
    decreases |log|
  {
    if k == |log| {
      assert log[..k] == log;
      if log != [] {
        DisciplinedPrefix(start, log[..|log| - 1], |log| - 1);
        assert log[..|log| - 1][..|log| - 1] == log[..|log| - 1];
        LogGrows(start, log[..|log| - 1], log[|log| - 1]);
        assert log == log[..|log| - 1] + [log[|log| - 1]];
      }
    } else {
      DisciplinedPrefix(start, log[..|log| - 1], k);
      assert log[..|log| - 1][..k] == log[..k];
      if k == |log| - 1 {
        assert log[..k] == log[..|log| - 1];
      }
    }
  }

  /** Between a Choke and the next Unchoke nothing is requested. */
  lemma {:induction false} SilentWhileChoked(start: bool, log: seq<Event>, i: nat, j: nat)
    requires Disciplined(start, log) && i < j < |log| && log[i] == Received(Choke)
    requires forall k | i < k < j :: log[k] != Received(Unchoke)
    ensures !log[j].Sent?
  {
    ChokedSince(start, log, i, j);
    DisciplinedPrefix(start, log, j);
  }

  lemma {:induction false} ChokedSince(start: bool, log: seq<Event>, i: nat, j: nat)
    requires i < j <= |log| && log[i] == Received(Choke)
    requires forall k | i < k < j :: log[k] != Received(Unchoke)
    ensures ChokedAfter(start, log[..j])
    decreases j
  {
    assert log[..j][..j - 1] == log[..j - 1];
    if i < j - 1 {
      ChokedSince(start, log, i, j - 1);
    }
  }

  // ----- Honest peers -----

  /** The bytes of block `k` of the true piece. */
  function TrueBlock(p: Plan, truth: seq<Octet>, k: nat): seq<Octet>
    requires |truth| == p.pieceLength && k < BlocksTotal(p)
  {
    BlocksTile(p, k);
    truth[k * BLOCK_SIZE..k * BLOCK_SIZE + BlockLength(p, k)]
  }

  /** The block answers request `k` with the true bytes. */
  predicate Answers(p: Plan, truth: seq<Octet>, b: Block, k: nat)
    requires |truth| == p.pieceLength
  {
    k < BlocksTotal(p) && b == Block(k * BLOCK_SIZE, TrueBlock(p, truth, k))
  }

  /** `ks[i]` is the request that block `i` answers; no request is answered twice. */
  predicate Honest(p: Plan, truth: seq<Octet>, blocks: seq<Block>, ks: seq<nat>)
    requires |truth| == p.pieceLength
  {
    && |ks| == |blocks|
    && (forall i | 0 <= i < |ks| :: Answers(p, truth, blocks[i], ks[i]))
    && Distinct(ks)
  }

  /** The buffer holds the true bytes of block `k`. */
  predicate Right(p: Plan, truth: seq<Octet>, buffer: seq<Octet>, k: nat)
    requires |truth| == p.pieceLength && k < BlocksTotal(p)
  {
    BlocksTile(p, k);
    |buffer| == p.pieceLength &&
    buffer[k * BLOCK_SIZE..k * BLOCK_SIZE + BlockLength(p, k)] == TrueBlock(p, truth, k)
  }

  lemma {:induction false} CopyElsewhere(buffer: seq<Octet>, begin: nat, block: seq<Octet>, i: nat, j: nat)
    requires begin + |block| <= |buffer| && i <= j <= |buffer|
    ensures CopyInto(buffer, begin, block)[begin..begin + |block|] == block
    ensures j <= begin || begin + |block| <= i ==> CopyInto(buffer, begin, block)[i..j] == buffer[i..j]
  {
    assert CopyInto(buffer, begin, block)[begin..begin + |block|] == block;
  }

  lemma {:induction false} CopyRight(p: Plan, truth: seq<Octet>, buffer: seq<Octet>, b: Block, k: nat, j: nat)
    requires |truth| == p.pieceLength == |buffer| && Answers(p, truth, b, k) && j < BlocksTotal(p)
    requires j == k || Right(p, truth, buffer, j)
    ensures b.begin + |b.bytes| <= |buffer|
    ensures Right(p, truth, CopyInto(buffer, b.begin, b.bytes), j)
  {
    BlocksTile(p, k);
    BlocksTile(p, j);
    CopyElsewhere(buffer, b.begin, b.bytes, j * BLOCK_SIZE, j * BLOCK_SIZE + BlockLength(p, j));
  }

  lemma {:induction false} ReplayRight(p: Plan, truth: seq<Octet>, buffer: seq<Octet>, blocks: seq<Block>, ks: seq<nat>)
    requires |truth| == p.pieceLength == |buffer| && Honest(p, truth, blocks, ks) && InBuffer(|buffer|, blocks)
    ensures forall i | 0 <= i < |ks| :: Right(p, truth, Replay(buffer, blocks), ks[i])
    decreases |blocks|
  {
    if blocks != [] {
      var n := |blocks| - 1;
      ReplayRight(p, truth, buffer, blocks[..n], ks[..n]);
      var before := Replay(buffer, blocks[..n]);
      forall i | 0 <= i < |ks|
        ensures Right(p, truth, Replay(buffer, blocks), ks[i])
      {
        assert i < n ==> ks[..n][i] == ks[i];
        CopyRight(p, truth, before, blocks[n], ks[n], ks[i]);
      }
    }
  }

  /** Bytes that are right on every block are the true bytes. */
  lemma {:induction false} RightEverywhere(p: Plan, truth: seq<Octet>, buffer: seq<Octet>, k: nat)
    requires |truth| == p.pieceLength == |buffer| && k <= BlocksTotal(p)
    requires forall j | 0 <= j < BlocksTotal(p) :: Right(p, truth, buffer, j)
    ensures var to := if k < BlocksTotal(p) then k * BLOCK_SIZE else p.pieceLength;
      to <= p.pieceLength && buffer[..to] == truth[..to]
  {
    if k > 0 {
      RightEverywhere(p, truth, buffer, k - 1);
      BlocksTile(p, k - 1);
      assert Right(p, truth, buffer, k - 1);
      var from, to := (k - 1) * BLOCK_SIZE, (k - 1) * BLOCK_SIZE + BlockLength(p, k - 1);
      assert buffer[..to] == buffer[..from] + buffer[from..to];
      assert truth[..to] == truth[..from] + truth[from..to];
    }
  }

  /**
   When every block received answers a distinct block of the piece with the true
   bytes, in any order and among any other messages, a loop that runs to its end
   leaves the true piece in the buffer, and the result is that piece as soon as
   it passes the digest check.
   */
  lemma {:induction false} HonestPeer(p: Plan, verify: seq<Octet> -> bool, s: State, truth: seq<Octet>, ks: seq<nat>)
    requires Fresh(p, s) && |truth| == p.pieceLength
    requires Honest(p, truth, Blocks(Run(p, verify, s).1.log), ks)
    requires Run(p, verify, s).1.received == BlocksTotal(p)
    ensures Run(p, verify, s).1.buffer == truth
    ensures Run(p, verify, s).0 == if verify(truth) then Done(truth) else Failed(CorruptPiece)
  {
    assert FirstRequests(p, 0) == [];
    RunInv(p, verify, s, s);
    var end := Run(p, verify, s).1;
    var blocks := Blocks(end.log);
    ReplayRight(p, truth, s.buffer, blocks, ks);
    forall j | 0 <= j < BlocksTotal(p)
      ensures Right(p, truth, end.buffer, j)
    {
      Pigeonhole(ks, BlocksTotal(p), j);
    }
    RightEverywhere(p, truth, end.buffer, BlocksTotal(p));
    assert end.buffer[..p.pieceLength] == end.buffer && truth[..p.pieceLength] == truth;
  }

  // ----- What the requests ask for -----

  /** The requests ask for consecutive ranges of one piece, from its start on and never past its end. */
  predicate Consecutive(p: Plan, requests: seq<Message>) {
    forall i | 0 <= i < |requests| ::
      && requests[i].Request? && requests[i].index == p.index
      && requests[i].begin == EndBefore(requests, i)
      && 0 < requests[i].length <= 16384 && EndOf(requests[i]) <= p.pieceLength
      && (requests[i].length == 16384 || EndOf(requests[i]) == p.pieceLength)
  }

  /** Where the range of a request ends. */
  function EndOf(m: Message): int {
    if m.Request? then m.begin + m.length else 0
  }

  /** Where the requests before number `i` end. */
  function EndBefore(requests: seq<Message>, i: nat): int
    requires i <= |requests|
  {
    if i == 0 then 0 else EndOf(requests[i - 1])
  }

  lemma {:induction false} FirstConsecutive(p: Plan, n: nat)
    requires n <= BlocksTotal(p)
    ensures Consecutive(p, FirstRequests(p, n))
    ensures n == BlocksTotal(p) > 0 ==> EndOf(FirstRequests(p, n)[n - 1]) == p.pieceLength
  {
    forall i: nat | i < n
      ensures 0 < BlockLength(p, i) <= BLOCK_SIZE && i * BLOCK_SIZE + BlockLength(p, i) <= p.pieceLength
      ensures i + 1 < n ==> i * BLOCK_SIZE + BlockLength(p, i) == (i + 1) * BLOCK_SIZE
      ensures BlockLength(p, i) == BLOCK_SIZE || i * BLOCK_SIZE + BlockLength(p, i) == p.pieceLength
    {
      BlocksTile(p, i);
    }
    if n == BlocksTotal(p) > 0 {
      BlocksTile(p, n - 1);
    }
  }

  /**
   On every run the requests sent ask for consecutive ranges of the piece from its
   start on; once all blocks have been requested, they end exactly at its end.
   */
  lemma {:induction false} RequestsTile(p: Plan, verify: seq<Octet> -> bool, s: State)
    requires Fresh(p, s)
    ensures var requests := Requests(Run(p, verify, s).1.log);
      && Consecutive(p, requests)
      && (|requests| == BlocksTotal(p) > 0 ==> EndOf(requests[|requests| - 1]) == p.pieceLength)
  {
    RunSafe(p, verify, s);
    FirstConsecutive(p, Run(p, verify, s).1.requested);
  }

  lemma {:induction false} ConsecutiveAt(p: Plan, requests: seq<Message>, i: nat)
    requires Consecutive(p, requests) && i < |requests|
    ensures requests[i].Request? && 0 <= requests[i].begin
  {
    if i > 0 {
      ConsecutiveAt(p, requests, i - 1);
      assert 0 < requests[i - 1].length;
    }
  }

  lemma {:induction false} RequestInPiece(p: Plan, verify: seq<Octet> -> bool, s: State, i: nat)
    requires Fresh(p, s) && i < |Requests(Run(p, verify, s).1.log)|
    ensures var m := Requests(Run(p, verify, s).1.log)[i];
      && m.Request? && m.index == p.index && 0 <= m.begin && 0 < m.length <= 16384
      && m.begin + m.length <= p.pieceLength
  {
    RequestsTile(p, verify, s);
    ConsecutiveAt(p, Requests(Run(p, verify, s).1.log), i);
  }

  // ----- What the peer offers -----

  /** Piece `i` is offered exactly if it was at the start or has been announced since. */
  predicate OffersOk(start: State, s: State) {
    && |s.have| == |start.have|
    && forall i | 0 <= i < |s.have| :: s.have[i] <==> start.have[i] || Received(Have(i)) in s.log
  }

  lemma {:induction false} SendsOffer(p: Plan, start: State, s: State)
    requires OffersOk(start, s)
    ensures OffersOk(start, SendRequests(p, s).0)
    decreases BlocksTotal(p) - s.requested
  {
    if s.requested - s.received < PIPELINE_SIZE_MAX && s.requested < BlocksTotal(p) &&
       Encodable(BlockRequest(p, s.requested)) && s.writes > 0 {
      SendsOffer(p, start, SendOne(p, s));
    }
  }

  lemma {:induction false} HandleOffers(start: State, s: State, m: Message)
    requires OffersOk(start, s) && Benign(s, m)
    ensures OffersOk(start, Handle(s, m))
  {
  }

  lemma {:induction false} TurnOffers(p: Plan, start: State, s: State)
    requires OffersOk(start, s)
    ensures OffersOk(start, Turn(p, s).0)
  {
    if !s.choked {
      SendsOffer(p, start, s);
    }
    var ready := TopUp(p, s).0;
    if ready.inbox != [] && ready.inbox[0].Arrives? {
      var next := ready.(inbox := ready.inbox[1..]);
      if Benign(next, ready.inbox[0].message) {
        HandleOffers(start, next, ready.inbox[0].message);
      }
    }
  }

  /** After every run the peer offers exactly what it offered at the start and what it announced since. */
  lemma {:induction false} OffersExact(p: Plan, verify: seq<Octet> -> bool, start: State, s: State)
    requires OffersOk(start, s)
    ensures OffersOk(start, Run(p, verify, s).1)
    decreases |s.inbox|
  {
    if s.received < BlocksTotal(p) {
      TurnOffers(p, start, s);
      var turn := Turn(p, s);
      if turn.1.None? {
        OffersExact(p, verify, start, turn.0);
      }
    }
  }

  // ----- A peer that repeats itself -----

  /** `ks[i]` is the request that block `i` answers, any of them any number of times. */
  predicate Truthful(p: Plan, truth: seq<Octet>, blocks: seq<Block>, ks: seq<nat>)
    requires |truth| == p.pieceLength
  {
    |ks| == |blocks| && forall i | 0 <= i < |ks| :: Answers(p, truth, blocks[i], ks[i])
  }

  /** Whether block `j` is right does not depend on the other blocks. */
  lemma {:induction false} CopyKeeps(p: Plan, truth: seq<Octet>, buffer: seq<Octet>, b: Block, k: nat, j: nat)
    requires |truth| == p.pieceLength == |buffer| && Answers(p, truth, b, k) && j < BlocksTotal(p) && j != k
    ensures b.begin + |b.bytes| <= |buffer|
    ensures Right(p, truth, CopyInto(buffer, b.begin, b.bytes), j) <==> Right(p, truth, buffer, j)
  {
    BlocksTile(p, k);
    BlocksTile(p, j);
    CopyElsewhere(buffer, b.begin, b.bytes, j * BLOCK_SIZE, j * BLOCK_SIZE + BlockLength(p, j));
  }

  lemma {:induction false} InFront(ks: seq<nat>, j: nat)
    requires ks != []
    ensures j in ks <==> j in ks[..|ks| - 1] || j == ks[|ks| - 1]
  {
    assert ks == ks[..|ks| - 1] + [ks[|ks| - 1]];
  }

  /** After true answers a block is right exactly when it was answered or had been right all along. */
  lemma {:induction false} ReplayExact(p: Plan, truth: seq<Octet>, buffer: seq<Octet>, blocks: seq<Block>,
                                       ks: seq<nat>, j: nat)
    requires |truth| == p.pieceLength == |buffer| && Truthful(p, truth, blocks, ks) && InBuffer(|buffer|, blocks)
    requires j < BlocksTotal(p)
    ensures Right(p, truth, Replay(buffer, blocks), j) <==> j in ks || Right(p, truth, buffer, j)
    decreases |blocks|
  {
    if blocks != [] {
      var n := |blocks| - 1;
      ReplayExact(p, truth, buffer, blocks[..n], ks[..n], j);
      InFront(ks, j);
      var before := Replay(buffer, blocks[..n]);
      if j == ks[n] {
        CopyRight(p, truth, before, blocks[n], j, j);
      } else {
        CopyKeeps(p, truth, before, blocks[n], ks[n], j);
      }
    }
  }

  lemma {:induction false} RightMeansTrue(p: Plan, truth: seq<Octet>, buffer: seq<Octet>)
    requires |truth| == p.pieceLength == |buffer|
    ensures buffer == truth <==> forall j | 0 <= j < BlocksTotal(p) :: Right(p, truth, buffer, j)
  {
    if forall j | 0 <= j < BlocksTotal(p) :: Right(p, truth, buffer, j) {
      RightEverywhere(p, truth, buffer, BlocksTotal(p));
      assert buffer[..p.pieceLength] == buffer && truth[..p.pieceLength] == truth;
    }
  }

  /** Every block that no answer brought is all zeros, as the buffer was. */
  predicate MissingAreZero(p: Plan, truth: seq<Octet>, ks: seq<nat>)
    requires |truth| == p.pieceLength
  {
    forall j: nat | j < BlocksTotal(p) && j !in ks :: TrueBlock(p, truth, j) == Zeros(|TrueBlock(p, truth, j)|)
  }

  lemma {:induction false} ZeroBlock(p: Plan, truth: seq<Octet>, j: nat)
    requires |truth| == p.pieceLength && j < BlocksTotal(p)
    ensures Right(p, truth, Zeros(p.pieceLength), j) <==> TrueBlock(p, truth, j) == Zeros(|TrueBlock(p, truth, j)|)
  {
    BlocksTile(p, j);
    var from, to := j * BLOCK_SIZE, j * BLOCK_SIZE + BlockLength(p, j);
    assert Zeros(p.pieceLength)[from..to] == Zeros(BlockLength(p, j));
  }

  /**
   The loop counts a repeated block as a new one. When every block received is
   true but some may repeat, a loop that runs to its end has the true piece in
   its buffer if and only if every block that never came is all zeros.
   */
  lemma {:induction false} RepeatsExact(p: Plan, verify: seq<Octet> -> bool, s: State, truth: seq<Octet>, ks: seq<nat>)
    requires Fresh(p, s) && |truth| == p.pieceLength && s.buffer == Zeros(p.pieceLength)
    requires Truthful(p, truth, Blocks(Run(p, verify, s).1.log), ks)
    requires Run(p, verify, s).1.received == BlocksTotal(p)
    ensures Run(p, verify, s).1.buffer == truth <==> MissingAreZero(p, truth, ks)
    ensures Run(p, verify, s).0 == Finish(verify, Run(p, verify, s).1)
  {
    assert FirstRequests(p, 0) == [];
    RunInv(p, verify, s, s);
    var end := Run(p, verify, s).1;
    forall j: nat | j < BlocksTotal(p)
      ensures Right(p, truth, end.buffer, j) <==>
              j in ks || TrueBlock(p, truth, j) == Zeros(|TrueBlock(p, truth, j)|)
    {
      ReplayExact(p, truth, s.buffer, Blocks(end.log), ks, j);
      ZeroBlock(p, truth, j);
    }
    RightMeansTrue(p, truth, end.buffer);
  }
}
