/**
 What a peer's messages make of a run: enough blocks on a working socket end it,
 an honest peer's bytes yield the true piece, and the first message that does not
 fit decides how it fails.
 */
module Deliveries {
  import opened Octets
  import opened Options
  import opened Sequences
  import opened Wire
  import opened Download

  /** Messages that cause no exception and no overrun, with no failure before the last of them. */
  predicate Clean(s: State, inbox: seq<Incoming>) {
    forall i | 0 <= i < |inbox| ::
      if inbox[i].Arrives? then Benign(s, inbox[i].message) else i == |inbox| - 1
  }

  /** The blocks still to arrive. */
  function Coming(inbox: seq<Incoming>): seq<Block> {
    if inbox == [] then []
    else
      (if inbox[0].Arrives? && inbox[0].message.PieceMessage?
       then [Block(inbox[0].message.begin, inbox[0].message.block)] else []) + Coming(inbox[1..])
  }

  /** The requests still to be sent can be encoded and written. */
  predicate CanSend(p: Plan, s: State) {
    && s.requested + s.writes >= BlocksTotal(p)
    && forall k: nat | k < BlocksTotal(p) :: Encodable(BlockRequest(p, k))
  }

  /** Two states of the same connection, apart from its counters, flags and log. */
  predicate SameSizes(s: State, r: State) {
    |r.have| == |s.have| && |r.buffer| == |s.buffer| && r.pieces == s.pieces
  }

  lemma {:induction false} SendsAll(p: Plan, s: State)
    requires CanSend(p, s)
    ensures var r := SendRequests(p, s);
      r.1 == AllSent && CanSend(p, r.0) && r.0.received == s.received && r.0.inbox == s.inbox &&
      SameSizes(s, r.0) && Blocks(r.0.log) == Blocks(s.log)
    decreases BlocksTotal(p) - s.requested
  {
    if s.requested - s.received < PIPELINE_SIZE_MAX && s.requested < BlocksTotal(p) {
      assert Encodable(BlockRequest(p, s.requested));
      LogGrows(s.choked, s.log, Sent(BlockRequest(p, s.requested)));
      SendsAll(p, SendOne(p, s));
    }
  }

  lemma {:induction false} ListenDelivers(s: State)
    requires s.inbox != [] && s.inbox[0].Arrives? && Benign(s, s.inbox[0].message)
    ensures var (next, end) := Listen(s);
      && end.None? && next.inbox == s.inbox[1..] && SameSizes(s, next)
      && next.requested == s.requested && next.writes == s.writes
      && Blocks(next.log) + Coming(next.inbox) == Blocks(s.log) + Coming(s.inbox)
      && next.received - s.received == |Blocks(next.log)| - |Blocks(s.log)|
  {
    var m := s.inbox[0].message;
    LogGrows(s.choked, s.log, Received(m));
    if m.PieceMessage? {
      Associative(Blocks(s.log), [Block(m.begin, m.block)], Coming(s.inbox[1..]));
    } else {
      assert [] + Coming(s.inbox[1..]) == Coming(s.inbox[1..]);
    }
  }

  lemma {:induction false} TurnDelivers(p: Plan, s: State)
    requires CanSend(p, s) && s.inbox != [] && s.inbox[0].Arrives? && Benign(s, s.inbox[0].message)
    ensures var (next, end) := Turn(p, s);
      && end.None? && CanSend(p, next) && next.inbox == s.inbox[1..] && SameSizes(s, next)
      && Blocks(next.log) + Coming(next.inbox) == Blocks(s.log) + Coming(s.inbox)
      && next.received - s.received == |Blocks(next.log)| - |Blocks(s.log)|
  {
    if s.choked {
      ListenDelivers(s);
    } else {
      SendsAll(p, s);
      ListenDelivers(SendRequests(p, s).0);
    }
  }

  lemma {:induction false} FirstArrives(s: State, inbox: seq<Incoming>)
    requires Clean(s, inbox) && Coming(inbox) != []
    ensures inbox != [] && inbox[0].Arrives?
  {
  }

  /** With enough blocks on the way and a working socket, the loop runs to its end and loses none of them. */
  lemma {:induction false} Delivery(p: Plan, verify: seq<Octet> -> bool, s: State)
    requires CanSend(p, s) && Clean(s, s.inbox)
    requires |Blocks(s.log)| == s.received && s.received + |Coming(s.inbox)| >= BlocksTotal(p)
    ensures var end := Run(p, verify, s).1;
      end.received >= BlocksTotal(p) && Blocks(end.log) + Coming(end.inbox) == Blocks(s.log) + Coming(s.inbox)
    decreases |s.inbox|
  {
    if s.received < BlocksTotal(p) {
      FirstArrives(s, s.inbox);
      TurnDelivers(p, s);
      var next := Turn(p, s).0;
      assert forall i | 0 <= i < |next.inbox| :: next.inbox[i] == s.inbox[i + 1];
      assert |Blocks(next.log) + Coming(next.inbox)| == |Blocks(s.log) + Coming(s.inbox)|;
      Delivery(p, verify, next);
    }
  }

  // ----- What decides a run -----

  /** How the loop ends on one incoming item, if it does. */
  function Verdict(s: State, item: Incoming): Option<Outcome> {
    match item
    case Fails(e) => Some(Failed(e))
    case Arrives(m) => if Benign(s, m) then None else Some(Stops(s, m))
  }

  /** Nothing before item `k` ends the loop, and the blocks before it are not enough. */
  predicate Awaits(p: Plan, s: State, k: nat) {
    && k <= |s.inbox|
    && (forall j | 0 <= j < k :: Verdict(s, s.inbox[j]) == None)
    && s.received + |Coming(s.inbox[..k])| < BlocksTotal(p)
  }

  /** How the loop ends on item `k`, or at the end of the inbox. */
  function Ending(s: State, k: nat): Outcome {
    if k < |s.inbox| && Verdict(s, s.inbox[k]).Some? then Verdict(s, s.inbox[k]).value else Failed(SocketTimeout)
  }

  lemma {:induction false} SameVerdict(s: State, r: State, item: Incoming)
    requires SameSizes(s, r)
    ensures Verdict(r, item) == Verdict(s, item)
  {
  }

  lemma {:induction false} ComingFirst(inbox: seq<Incoming>, k: nat)
    requires 0 < k <= |inbox|
    ensures |Coming(inbox[..k])| == |Coming(inbox[..1])| + |Coming(inbox[1..][..k - 1])|
    ensures |Coming(inbox)| == |Coming(inbox[..1])| + |Coming(inbox[1..])|
  {
    assert inbox[..k][1..] == inbox[1..][..k - 1];
    assert inbox[..1][1..] == [];
  }

  // ----- What is requested by then -----

  /** Whether the peer has us choked when item `k` is awaited. */
  predicate ChokedBy(s: State, k: nat)
    requires k <= |s.inbox|
  {
    if k == 0 then s.choked
    else if s.inbox[k - 1] == Arrives(Choke) then true
    else if s.inbox[k - 1] == Arrives(Unchoke) then false
    else ChokedBy(s, k - 1)
  }

  /** How many requests have been sent once the pipeline is topped up. */
  function Topped(p: Plan, choked: bool, requested: nat, received: nat): (n: nat)
    ensures n >= requested
  {
    var room := if received + PIPELINE_SIZE_MAX < BlocksTotal(p) then received + PIPELINE_SIZE_MAX else BlocksTotal(p);
    if choked || room < requested then requested else room
  }

  /** How many requests are due when item `k` is awaited. */
  function Due(p: Plan, s: State, k: nat): (n: nat)
    requires k <= |s.inbox|
    ensures n >= s.requested
  {
    Topped(p, ChokedBy(s, k), if k == 0 then s.requested else Due(p, s, k - 1), s.received + |Coming(s.inbox[..k])|)
  }

  /** The socket takes the requests up to `due`, and each of them can be encoded. */
  predicate Accepts(p: Plan, s: State, due: nat) {
    due <= s.requested + s.writes && forall k: nat | s.requested <= k < due :: Encodable(BlockRequest(p, k))
  }

  /** A request that cannot be encoded comes up before the socket fails. */
  predicate Unencodable(p: Plan, s: State, due: nat) {
    exists k: nat :: s.requested <= k < due && k <= s.requested + s.writes && !Encodable(BlockRequest(p, k))
  }

  /** How sending what is due ends. */
  function Delivered(p: Plan, s: State, due: nat): Sending {
    if Accepts(p, s, due) then AllSent else if Unencodable(p, s, due) then EncodingThrows else WriteFailed
  }

  /** The states differ only in what sending requests changes. */
  predicate SentOnly(s: State, r: State) {
    r == s.(requested := r.requested, writes := r.writes, log := r.log) && Blocks(r.log) == Blocks(s.log)
  }

  lemma {:induction false} SendOneOnly(p: Plan, s: State)
    requires s.writes > 0
    ensures SentOnly(s, SendOne(p, s))
  {
    LogGrows(s.choked, s.log, Sent(BlockRequest(p, s.requested)));
  }

  lemma {:induction false} DeliveredNext(p: Plan, s: State, due: nat)
    requires s.requested < due && Encodable(BlockRequest(p, s.requested)) && s.writes > 0
    ensures Delivered(p, SendOne(p, s), due) == Delivered(p, s, due)
  {
    var next := SendOne(p, s);
    assert Accepts(p, s, due) <==> Accepts(p, next, due);
    if k: nat :| s.requested <= k < due && k <= s.requested + s.writes && !Encodable(BlockRequest(p, k)) {
      assert k >= next.requested && k <= next.requested + next.writes;
    }
  }

  lemma {:induction false} DeliveredFirst(p: Plan, s: State, due: nat)
    requires s.requested < due
    ensures !Encodable(BlockRequest(p, s.requested)) ==> Delivered(p, s, due) == EncodingThrows
    ensures Encodable(BlockRequest(p, s.requested)) && s.writes == 0 ==> Delivered(p, s, due) == WriteFailed
  {
  }

  /** The inner loop sends exactly what is due, or stops where the socket or the encoder refuses. */
  lemma {:induction false} SendsDue(p: Plan, s: State)
    ensures var r, due := SendRequests(p, s), Topped(p, false, s.requested, s.received);
      && r.1 == Delivered(p, s, due)
      && (r.1 == AllSent ==> r.0.requested == due)
      && r.0.requested + r.0.writes == s.requested + s.writes
      && SentOnly(s, r.0)
    decreases BlocksTotal(p) - s.requested
  {
    if s.requested - s.received < PIPELINE_SIZE_MAX && s.requested < BlocksTotal(p) {
      var due := Topped(p, false, s.requested, s.received);
      DeliveredFirst(p, s, due);
      if Encodable(BlockRequest(p, s.requested)) && s.writes > 0 {
        SendOneOnly(p, s);
        DeliveredNext(p, s, due);
        SendsDue(p, SendOne(p, s));
      }
    }
  }

  /** A pipeline that is topped up has five requests in flight, or all blocks are requested. */
  lemma {:induction false} PipelineFull(p: Plan, s: State)
    requires !s.choked && TopUp(p, s).1 == AllSent && s.requested - s.received <= 5 && s.requested <= BlocksTotal(p)
    ensures var ready := TopUp(p, s).0;
      && ready.requested - ready.received <= 5
      && (ready.requested - ready.received == 5 || ready.requested == BlocksTotal(p))
  {
    SendsDue(p, s);
  }

  lemma {:induction false} TopsUp(p: Plan, s: State)
    ensures var (ready, sending) := TopUp(p, s);
      && sending == Delivered(p, s, Due(p, s, 0))
      && (sending == AllSent ==> ready.requested == Due(p, s, 0))
      && ready.requested + ready.writes == s.requested + s.writes
      && SentOnly(s, ready)
  {
    assert Coming(s.inbox[..0]) == [];
    if !s.choked {
      SendsDue(p, s);
    }
  }

  /** How a turn ends that awaits item `k`: as sending fails, or as the item says. */
  function EndingAt(p: Plan, s: State, k: nat): Outcome
    requires k <= |s.inbox|
  {
    match Delivered(p, s, Due(p, s, k))
    case EncodingThrows => Thrown
    case WriteFailed => Failed(s.writeError)
    case AllSent => Ending(s, k)
  }

  lemma {:induction false} TurnEnds(p: Plan, s: State)
    requires Accepts(p, s, Due(p, s, 0)) && s.inbox != [] ==> Verdict(s, s.inbox[0]).Some?
    ensures Turn(p, s).1 == Some(EndingAt(p, s, 0))
  {
    TopsUp(p, s);
    if s.inbox != [] {
      SameVerdict(s, TopUp(p, s).0, s.inbox[0]);
    }
  }

  lemma {:induction false} ListenGoesOn(s: State)
    requires s.inbox != [] && Verdict(s, s.inbox[0]) == None
    ensures var (next, end) := Listen(s);
      && end.None? && next.inbox == s.inbox[1..] && SameSizes(s, next)
      && next.requested == s.requested && next.writes == s.writes
      && next.received == s.received + |Coming(s.inbox[..1])|
      && next.choked == ChokedBy(s, 1) && next.writeError == s.writeError
  {
    assert s.inbox[..1][1..] == [];
  }

  /** A turn that goes on sends what is due and takes one item. */
  lemma {:induction false} TurnGoesOn(p: Plan, s: State)
    requires Accepts(p, s, Due(p, s, 0)) && s.inbox != [] && Verdict(s, s.inbox[0]) == None
    ensures var (next, end) := Turn(p, s);
      && end.None? && Follows(p, s, next)
  {
    var (ready, sending) := TopUp(p, s);
    TopsUp(p, s);
    SameVerdict(s, ready, s.inbox[0]);
    ListenGoesOn(ready);
    assert ChokedBy(ready, 0) == ChokedBy(s, 0);
  }

  /** The state after one turn that went on. */
  predicate Follows(p: Plan, s: State, next: State) {
    && s.inbox != [] && next.inbox == s.inbox[1..] && SameSizes(s, next)
    && next.received == s.received + |Coming(s.inbox[..1])| && next.choked == ChokedBy(s, 1)
    && next.requested == Due(p, s, 0) && next.requested + next.writes == s.requested + s.writes
    && next.writeError == s.writeError
  }

  lemma {:induction false} ChokedNext(p: Plan, s: State, next: State, k: nat)
    requires Follows(p, s, next) && 0 < k <= |s.inbox|
    ensures ChokedBy(next, k - 1) == ChokedBy(s, k)
    decreases k
  {
    if k > 1 {
      ChokedNext(p, s, next, k - 1);
    }
  }

  lemma {:induction false} DueNext(p: Plan, s: State, next: State, k: nat)
    requires Follows(p, s, next) && 0 < k <= |s.inbox|
    ensures Due(p, next, k - 1) == Due(p, s, k)
    decreases k
  {
    ChokedNext(p, s, next, k);
    ComingFirst(s.inbox, k);
    if k > 1 {
      DueNext(p, s, next, k - 1);
    } else {
      assert next.inbox[..0] == [];
    }
  }

  /** No fewer requests are due later. */
  lemma {:induction false} DueGrows(p: Plan, s: State, k: nat)
    requires k <= |s.inbox|
    ensures Due(p, s, 0) <= Due(p, s, k)
    decreases k
  {
    if k > 0 {
      DueGrows(p, s, k - 1);
    }
  }

  lemma {:induction false} AcceptsNext(p: Plan, s: State, next: State, due: nat)
    requires Follows(p, s, next) && Accepts(p, s, Due(p, s, 0)) && due >= Due(p, s, 0)
    ensures Delivered(p, next, due) == Delivered(p, s, due)
  {
    assert Accepts(p, s, due) <==> Accepts(p, next, due);
    if k: nat :| s.requested <= k < due && k <= s.requested + s.writes && !Encodable(BlockRequest(p, k)) {
      assert k >= next.requested && k <= next.requested + next.writes;
    }
  }

  lemma {:induction false} AwaitsNext(p: Plan, s: State, next: State, k: nat)
    requires Follows(p, s, next) && 0 < k <= |s.inbox| && Verdict(s, s.inbox[0]) == None
    ensures Awaits(p, s, k) <==> Awaits(p, next, k - 1)
    ensures Ending(s, k) == Ending(next, k - 1)
    ensures k < |s.inbox| ==> Verdict(s, s.inbox[k]) == Verdict(next, next.inbox[k - 1])
  {
    ComingFirst(s.inbox, k);
    forall item: Incoming
      ensures Verdict(next, item) == Verdict(s, item)
    {
      SameVerdict(s, next, item);
    }
    assert forall j | 0 <= j < |next.inbox| :: next.inbox[j] == s.inbox[j + 1];
    assert Awaits(p, next, k - 1) ==> forall j | 0 < j < k :: s.inbox[j] == next.inbox[j - 1];
  }

  /** The run gets as far as item `k`, with all its requests accepted before, and ends there. */
  predicate StopsAt(p: Plan, s: State, k: nat) {
    && Awaits(p, s, k)
    && (k > 0 ==> Accepts(p, s, Due(p, s, k - 1)))
    && (Accepts(p, s, Due(p, s, k)) && k < |s.inbox| ==> Verdict(s, s.inbox[k]).Some?)
  }

  /** What is due later is sent alike from both states. */
  lemma {:induction false} DeliveredLater(p: Plan, s: State, next: State, k: nat)
    requires Follows(p, s, next) && 0 < k <= |s.inbox| && Accepts(p, s, Due(p, s, 0))
    ensures Delivered(p, next, Due(p, next, k - 1)) == Delivered(p, s, Due(p, s, k))
    ensures Accepts(p, next, Due(p, next, k - 1)) <==> Accepts(p, s, Due(p, s, k))
  {
    DueNext(p, s, next, k);
    DueGrows(p, s, k);
    AcceptsNext(p, s, next, Due(p, s, k));
  }

  lemma {:induction false} StopsNext(p: Plan, s: State, next: State, k: nat)
    requires Follows(p, s, next) && 0 < k <= |s.inbox| && Verdict(s, s.inbox[0]) == None
    requires Accepts(p, s, Due(p, s, 0))
    ensures StopsAt(p, s, k) <==> StopsAt(p, next, k - 1)
  {
    AwaitsNext(p, s, next, k);
    DeliveredLater(p, s, next, k);
    if k > 1 {
      DeliveredLater(p, s, next, k - 1);
    }
  }

  lemma {:induction false} EndingNext(p: Plan, s: State, next: State, k: nat)
    requires Follows(p, s, next) && 0 < k <= |s.inbox| && Verdict(s, s.inbox[0]) == None
    requires Accepts(p, s, Due(p, s, 0))
    ensures EndingAt(p, s, k) == EndingAt(p, next, k - 1)
  {
    AwaitsNext(p, s, next, k);
    DeliveredLater(p, s, next, k);
  }

  lemma {:induction false} AcceptsFirst(p: Plan, s: State, k: nat)
    requires k <= |s.inbox| && Accepts(p, s, Due(p, s, k))
    ensures Accepts(p, s, Due(p, s, 0))
  {
    DueGrows(p, s, k);
  }

  /** A run that stops at a later item takes its turn and then stops there. */
  lemma {:induction false} StopsLater(p: Plan, s: State, k: nat)
    requires StopsAt(p, s, k) && k > 0
    ensures var (next, end) := Turn(p, s);
      end.None? && StopsAt(p, next, k - 1) && EndingAt(p, next, k - 1) == EndingAt(p, s, k)
  {
    var next := Turn(p, s).0;
    AcceptsFirst(p, s, k - 1);
    TurnGoesOn(p, s);
    StopsNext(p, s, next, k);
    EndingNext(p, s, next, k);
  }

  lemma {:induction false} RunDecided(p: Plan, verify: seq<Octet> -> bool, s: State, k: nat)
    requires StopsAt(p, s, k)
    ensures Run(p, verify, s).0 == EndingAt(p, s, k)
    decreases k
  {
    if k == 0 {
      TurnEnds(p, s);
    } else {
      StopsLater(p, s, k);
      RunDecided(p, verify, Turn(p, s).0, k - 1);
    }
  }

  lemma {:induction false} RunGoesOn(p: Plan, verify: seq<Octet> -> bool, s: State)
    requires s.received < BlocksTotal(p) && Turn(p, s).1.None?
    ensures Run(p, verify, s) == Run(p, verify, Turn(p, s).0)
  {
  }

  /** Whether a run stops on an item is decided by what it does after its first turn. */
  lemma {:induction false} StopsSooner(p: Plan, s: State, k: nat)
    requires Accepts(p, s, Due(p, s, 0)) && s.inbox != [] && Verdict(s, s.inbox[0]) == None
    requires StopsAt(p, Turn(p, s).0, k)
    ensures Turn(p, s).1.None? && StopsAt(p, s, k + 1)
  {
    TurnGoesOn(p, s);
    StopsNext(p, s, Turn(p, s).0, k + 1);
  }

  lemma {:induction false} RunEnds(p: Plan, verify: seq<Octet> -> bool, s: State) returns (k: nat)
    ensures StopsAt(p, s, k) || Run(p, verify, s).0 == Finish(verify, Run(p, verify, s).1)
    decreases |s.inbox|
  {
    k := 0;
    if s.received < BlocksTotal(p) && Accepts(p, s, Due(p, s, 0)) && s.inbox != [] && Verdict(s, s.inbox[0]) == None {
      TurnGoesOn(p, s);
      RunGoesOn(p, verify, s);
      k := RunEnds(p, verify, Turn(p, s).0);
      if StopsAt(p, Turn(p, s).0, k) {
        StopsSooner(p, s, k);
        k := k + 1;
      }
    }
  }

  /**
   How every run ends, whatever the peer sends and wherever the socket gives out.
   It leaves the memory it may use exactly when a block outside the buffer, or
   an announcement past the peer's bitfield, arrives before the last block and
   before anything else that ends the loop, all requests due by then having been
   accepted. It throws exactly when an index out of bounds arrives so, or a
   request that cannot be encoded comes due. If nothing ends it, it gets to the
   check.
   */
  lemma {:induction false} OverrunExact(p: Plan, verify: seq<Octet> -> bool, s: State)
    ensures Run(p, verify, s).0 == Overrun <==> exists k :: StopsAt(p, s, k) && EndingAt(p, s, k) == Overrun
    ensures Run(p, verify, s).0 == Thrown <==> exists k :: StopsAt(p, s, k) && EndingAt(p, s, k) == Thrown
    ensures (exists k :: StopsAt(p, s, k)) || Run(p, verify, s).0 == Finish(verify, Run(p, verify, s).1)
  {
    var k := RunEnds(p, verify, s);
    if StopsAt(p, s, k) {
      RunDecided(p, verify, s, k);
    }
    forall j: nat | StopsAt(p, s, j)
      ensures Run(p, verify, s).0 == EndingAt(p, s, j)
    {
      RunDecided(p, verify, s, j);
    }
  }

  /** A block one byte longer than the piece, sent to a downloader that is still choked. */
  lemma {:induction false} OversizedBlock(p: Plan, verify: seq<Octet> -> bool, s: State, rest: seq<Incoming>)
    requires p.pieceLength > 0 && Fresh(p, s) && s.choked
    requires s.inbox == [Arrives(PieceMessage(p.index, 0, Zeros(p.pieceLength + 1)))] + rest
    ensures Run(p, verify, s).0 == Overrun
  {
    assert Coming(s.inbox[..0]) == [];
    assert s.inbox[0] == Arrives(PieceMessage(p.index, 0, Zeros(p.pieceLength + 1)));
    assert StopsAt(p, s, 0);
    RunDecided(p, verify, s, 0);
  }

  /** An announcement of a piece the torrent does not have makes the bitfield throw. */
  lemma {:induction false} UnknownAnnounced(p: Plan, verify: seq<Octet> -> bool, s: State, index: int,
                                            rest: seq<Incoming>)
    requires p.pieceLength > 0 && Fresh(p, s) && s.choked && |s.have| <= s.pieces && !(0 <= index < s.pieces)
    requires s.inbox == [Arrives(Have(index))] + rest
    ensures Run(p, verify, s).0 == Thrown
  {
    assert Coming(s.inbox[..0]) == [];
    assert s.inbox[0] == Arrives(Have(index));
    assert StopsAt(p, s, 0);
    RunDecided(p, verify, s, 0);
  }

  // ----- A peer that repeats itself -----

  lemma {:induction false} TruthfulPrefix(p: Plan, truth: seq<Octet>, some: seq<Block>, more: seq<Block>, ks: seq<nat>)
    requires |truth| == p.pieceLength && Truthful(p, truth, some + more, ks)
    ensures Truthful(p, truth, some, ks[..|some|])
  {
    forall i | 0 <= i < |some|
      ensures Answers(p, truth, some[i], ks[i])
    {
      assert Answers(p, truth, (some + more)[i], ks[i]);
    }
  }

  /**
   A peer that sends true blocks, in any order and with any repeats: the loop ends
   after as many as the piece has, and leaves the true piece in the buffer if and
   only if every block missing among those is all zeros.
   */
  lemma {:induction false} RepeatsDelivered(p: Plan, verify: seq<Octet> -> bool, s: State, truth: seq<Octet>,
                                            ks: seq<nat>)
    requires Fresh(p, s) && CanSend(p, s) && Clean(s, s.inbox) && s.buffer == Zeros(p.pieceLength)
    requires |truth| == p.pieceLength && Truthful(p, truth, Coming(s.inbox), ks) && |ks| >= BlocksTotal(p)
    ensures Run(p, verify, s).1.buffer == truth <==> MissingAreZero(p, truth, ks[..BlocksTotal(p)])
    ensures Run(p, verify, s).0 == Finish(verify, Run(p, verify, s).1)
  {
    Delivery(p, verify, s);
    assert FirstRequests(p, 0) == [];
    RunInv(p, verify, s, s);
    var end := Run(p, verify, s).1;
    assert [] + Coming(s.inbox) == Coming(s.inbox);
    TruthfulPrefix(p, truth, Blocks(end.log), Coming(end.inbox), ks);
    RepeatsExact(p, verify, s, truth, ks[..BlocksTotal(p)]);
  }

  lemma {:induction false} TwoComing(m: Incoming, b: Block)
    requires m.Arrives? && m.message.PieceMessage? && b == Block(m.message.begin, m.message.block)
    ensures Coming([m, m]) == [b, b]
  {
    assert [m, m][1..] == [m] && [m][1..] == [];
    assert Coming([m]) == [b] + [] == [b] && [b] + [b] == [b, b];
  }

  lemma {:induction false} TwoBlocks(truth: seq<Octet>)
    requires |truth| == BLOCK_SIZE + 1
    ensures var p := Plan(0, BLOCK_SIZE + 1);
      && BlocksTotal(p) == 2
      && TrueBlock(p, truth, 0) == truth[..BLOCK_SIZE] && TrueBlock(p, truth, 1) == [truth[BLOCK_SIZE]]
  {
  }

  /** The second block of two is missing and not zero. */
  lemma {:induction false} SecondMissing(truth: seq<Octet>)
    requires |truth| == BLOCK_SIZE + 1 && truth[BLOCK_SIZE] != 0
    ensures !MissingAreZero(Plan(0, BLOCK_SIZE + 1), truth, [0, 0])
  {
    var p := Plan(0, BLOCK_SIZE + 1);
    TwoBlocks(truth);
    assert 1 < BlocksTotal(p) && 1 !in [0, 0];
    assert TrueBlock(p, truth, 1)[0] != 0;
  }

  /** A truthful peer that sends the first of two blocks twice: the piece is taken for corrupt. */
  lemma {:induction false} RepeatedBlock(verify: seq<Octet> -> bool, s: State, truth: seq<Octet>, m: Incoming)
    requires |truth| == BLOCK_SIZE + 1 && truth[BLOCK_SIZE] != 0 && forall c :: verify(c) <==> c == truth
    requires var p := Plan(0, BLOCK_SIZE + 1);
      Fresh(p, s) && CanSend(p, s) && s.buffer == Zeros(p.pieceLength)
    requires m == Arrives(PieceMessage(0, 0, truth[..BLOCK_SIZE])) && s.inbox == [m, m]
    ensures Run(Plan(0, BLOCK_SIZE + 1), verify, s).0 == Failed(CorruptPiece)
  {
    var p, b := Plan(0, BLOCK_SIZE + 1), Block(0, truth[..BLOCK_SIZE]);
    TwoComing(m, b);
    TwoBlocks(truth);
    SecondMissing(truth);
    assert [0, 0][..2] == [0, 0];
    RepeatsDelivered(p, verify, s, truth, [0, 0]);
  }

  // ----- From the bytes of the stream -----

  /** What a byte stream delivers: its messages, then the failure it ends with. */
  function FromStream(piecesCount: int, stream: seq<Octet>): seq<Incoming> {
    var (messages, end) := RecvAll(piecesCount, stream);
    Arrivals(messages) + [Fails(if end.Invalid? then InvalidMessage else SocketOther)]
  }

  function Arrivals(messages: seq<Message>): (r: seq<Incoming>)
    ensures |r| == |messages| && forall i | 0 <= i < |r| :: r[i] == Arrives(messages[i])
  {
    seq(|messages|, i requires 0 <= i < |messages| => Arrives(messages[i]))
  }

  /** The blocks among the messages. */
  function BlocksIn(messages: seq<Message>): seq<Block> {
    Coming(Arrivals(messages))
  }

  lemma {:induction false} ComingThenFails(messages: seq<Message>, e: DownloaderError)
    ensures Coming(Arrivals(messages) + [Fails(e)]) == BlocksIn(messages)
    decreases |messages|
  {
    var inbox := Arrivals(messages) + [Fails(e)];
    if messages == [] {
      assert inbox[1..] == [];
      assert Arrivals(messages) == [];
    } else {
      assert inbox[1..] == Arrivals(messages[1..]) + [Fails(e)];
      assert Arrivals(messages)[1..] == Arrivals(messages[1..]);
      ComingThenFails(messages[1..], e);
    }
  }

  lemma {:induction false} StreamArrives(piecesCount: int, messages: seq<Message>) returns (e: DownloaderError)
    requires AllSendable(piecesCount, messages)
    ensures FromStream(piecesCount, EncodeAll(piecesCount, messages)) == Arrivals(messages) + [Fails(e)]
  {
    var stream := EncodeAll(piecesCount, messages);
    StreamRoundTrip(piecesCount, messages, []);
    assert stream + [] == stream;
    assert messages + RecvAll(piecesCount, []).0 == messages;
    var end := RecvAll(piecesCount, stream).1;
    e := if end.Invalid? then InvalidMessage else SocketOther;
  }

  lemma {:induction false} HonestPrefix(p: Plan, truth: seq<Octet>, some: seq<Block>, more: seq<Block>, ks: seq<nat>)
    requires |truth| == p.pieceLength && Honest(p, truth, some + more, ks)
    ensures Honest(p, truth, some, ks[..|some|])
  {
    var all, part := some + more, ks[..|some|];
    forall i | 0 <= i < |some|
      ensures Answers(p, truth, some[i], part[i])
    {
      assert Answers(p, truth, all[i], ks[i]) && all[i] == some[i];
    }
  }

  lemma {:induction false} BlockAmong(messages: seq<Message>, i: nat) returns (j: nat)
    requires i < |messages| && messages[i].PieceMessage?
    ensures j < |BlocksIn(messages)| && BlocksIn(messages)[j] == Block(messages[i].begin, messages[i].block)
    decreases i
  {
    assert Arrivals(messages)[1..] == Arrivals(messages[1..]);
    if i == 0 {
      j := 0;
    } else {
      var k := BlockAmong(messages[1..], i - 1);
      j := k + |BlocksIn(messages)| - |BlocksIn(messages[1..])|;
    }
  }

  /** A block that answers a request truly lies inside the piece. */
  lemma {:induction false} AnswerFits(p: Plan, truth: seq<Octet>, b: Block, k: nat)
    requires |truth| == p.pieceLength && Answers(p, truth, b, k)
    ensures 0 <= b.begin && b.begin + |b.bytes| <= p.pieceLength
  {
    BlocksTile(p, k);
  }

  lemma {:induction false} HonestIsBenign(p: Plan, s: State, messages: seq<Message>, truth: seq<Octet>, ks: seq<nat>,
                                          i: nat)
    requires |truth| == p.pieceLength == |s.buffer| && Honest(p, truth, BlocksIn(messages), ks) && i < |messages|
    requires messages[i].Have? ==> 0 <= messages[i].index < |s.have|
    ensures Benign(s, messages[i])
  {
    if messages[i].PieceMessage? {
      var j := BlockAmong(messages, i);
      AnswerFits(p, truth, BlocksIn(messages)[j], ks[j]);
    }
  }

  lemma {:induction false} HonestIsClean(p: Plan, s: State, messages: seq<Message>, e: DownloaderError,
                                         truth: seq<Octet>, ks: seq<nat>)
    requires |truth| == p.pieceLength == |s.buffer| && Honest(p, truth, BlocksIn(messages), ks)
    requires forall i | 0 <= i < |messages| && messages[i].Have? :: 0 <= messages[i].index < |s.have|
    ensures Clean(s, Arrivals(messages) + [Fails(e)])
  {
    forall i | 0 <= i < |messages|
      ensures Benign(s, messages[i])
    {
      HonestIsBenign(p, s, messages, truth, ks, i);
    }
  }

  /**
   From bytes to piece: when the peer's byte stream is the encodings of
   messages that announce only pieces of the torrent and whose blocks answer every
   request once with the true bytes, the download returns the true piece.
   */
  lemma {:induction false} HonestStream(p: Plan, verify: seq<Octet> -> bool, s: State, piecesCount: int,
                                        messages: seq<Message>, truth: seq<Octet>, ks: seq<nat>)
    requires Fresh(p, s) && CanSend(p, s) && |truth| == p.pieceLength && verify(truth)
    requires AllSendable(piecesCount, messages)
    requires forall i | 0 <= i < |messages| && messages[i].Have? :: 0 <= messages[i].index < |s.have|
    requires s.inbox == FromStream(piecesCount, EncodeAll(piecesCount, messages))
    requires Honest(p, truth, BlocksIn(messages), ks) && |BlocksIn(messages)| >= BlocksTotal(p)
    ensures Run(p, verify, s).0 == Done(truth)
  {
    var e := StreamArrives(piecesCount, messages);
    ComingThenFails(messages, e);
    HonestIsClean(p, s, messages, e, truth, ks);
    Delivery(p, verify, s);
    assert FirstRequests(p, 0) == [];
    RunInv(p, verify, s, s);
    var end := Run(p, verify, s).1;
    assert [] + Coming(s.inbox) == Coming(s.inbox);
    HonestPrefix(p, truth, Blocks(end.log), Coming(end.inbox), ks);
    HonestPeer(p, verify, s, truth, ks[..|Blocks(end.log)|]);
  }
}
