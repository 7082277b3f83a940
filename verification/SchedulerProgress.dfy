/**
 Who can go on: exactly which threads are blocked in a reachable state, and that
 the lock of the torrent map always comes free again.
 */
module SchedulerProgress {
  import opened Sequences
  import opened Scheduler
  import opened SchedulerInvariant

  predicate ByWorker(step: Step, w: nat) {
    match step
    case Take(v) => v == w
    case LockCheck(v) => v == w
    case LoadState(v) => v == w
    case Requeue(v) => v == w
    case Save(v) => v == w
    case LockFinish(v, _) => v == w
    case Score(v) => v == w
    case Count(v) => v == w
    case Compare(v) => v == w
    case _ => false
  }

  predicate ByClient(step: Step, c: nat) {
    match step
    case ReadTid(d) => d == c
    case LoadTid(d) => d == c
    case StoreTid(d) => d == c
    case Abandon(d) => d == c
    case LockAdd(d, _, _) => d == c
    case Emplace(d) => d == c
    case Publish(d) => d == c
    case Sweep(d, _) => d == c
    case LockRemove(d) => d == c
    case LoadRemove(d) => d == c
    case StopTorrent(d) => d == c
    case _ => false
  }

  // ----- Blocked threads -----

  lemma {:induction false} HeldHas(workers: seq<Worker>, w: nat)
    requires w < |workers| && Carries(workers[w])
    ensures workers[w].task.piece in HeldBy(workers, workers[w].task.tid)
  {
    if w > 0 {
      HeldHas(workers[1..], w - 1);
    }
  }

  predicate PeersThere(s: State, tid: nat) {
    tid in s.torrents && s.torrents[tid].scores != []
  }

  /** Whoever carries a task knows its torrent, and that torrent has a peer. */
  lemma {:induction false} CarriedHasPeers(s: State, w: nat)
    requires Inv(s) && w < |s.workers| && Carries(s.workers[w])
    ensures PeersThere(s, s.workers[w].task.tid)
  {
    var tid, piece := s.workers[w].task.tid, s.workers[w].task.piece;
    WorkerInShape(s, w);
    BooksAt(s, tid);
    HeldHas(s.workers, w);
    assert piece in Range(s.torrents[tid].enqueued);
  }

  /** The step a worker takes next; the peer that served it is not fixed. */
  function WorkerNext(worker: Worker, w: nat): Step {
    match worker
    case Idle => Take(w)
    case Holding(_) => LockCheck(w)
    case Checking(_) => LoadState(w)
    case Requeueing(_) => Requeue(w)
    case Processing(_) => Save(w)
    case Saved(_) => LockFinish(w, 0)
    case Finishing(_, _) => Score(w)
    case Scored(_) => Count(w)
    case Counted(_, _) => Compare(w)
  }

  predicate WorkerFree(s: State, w: nat)
    requires w < |s.workers|
  {
    match s.workers[w]
    case Idle => s.queue != []
    case Holding(_) => NoExclusive(s)
    case Saved(_) => NoExclusive(s)
    case _ => true
  }

  lemma {:induction false} WorkerEnabled(s: State, w: nat)
    requires w < |s.workers| && WorkerFree(s, w) && WorkerOk(s, s.workers[w])
    requires s.workers[w].Saved? ==> s.torrents[s.workers[w].task.tid].scores != []
    ensures Enabled(s, WorkerNext(s.workers[w], w))
  {
  }

  lemma {:induction false} WorkerGoesOn(s: State, w: nat)
    requires Reachable(s) && w < |s.workers| && WorkerFree(s, w)
    ensures Enabled(s, WorkerNext(s.workers[w], w))
  {
    assert WorkerOk(s, s.workers[w]) && (Carries(s.workers[w]) ==> PeersThere(s, s.workers[w].task.tid)) by {
      ReachableInv(s);
      WorkerInShape(s, w);
      if Carries(s.workers[w]) {
        CarriedHasPeers(s, w);
      }
    }
    WorkerEnabled(s, w);
  }

  lemma {:induction false} WorkerWaits(s: State, w: nat, step: Step)
    requires w < |s.workers| && ByWorker(step, w) && Enabled(s, step)
    ensures WorkerFree(s, w)
  {
  }

  /** A worker is blocked exactly if it finds the queue empty, or wants the lock while a client adds a torrent. */
  lemma {:induction false} WorkerBlockedExact(s: State, w: nat)
    requires Reachable(s) && w < |s.workers|
    ensures (exists step :: ByWorker(step, w) && Enabled(s, step)) <==>
            match s.workers[w] {
              case Idle => s.queue != []
              case Holding(_) => NoExclusive(s)
              case Saved(_) => NoExclusive(s)
              case _ => true
            }
  {
    if WorkerFree(s, w) {
      WorkerGoesOn(s, w);
      assert ByWorker(WorkerNext(s.workers[w], w), w);
    }
    if step :| ByWorker(step, w) && Enabled(s, step) {
      WorkerWaits(s, w, step);
    }
  }

  /** A step a client can take without waiting. */
  function ClientNext(s: State, c: nat): Step
    requires c < |s.clients|
  {
    match s.clients[c]
    case Resting => ReadTid(c)
    case Reading(_) => LoadTid(c)
    case Bumping(_, _) => StoreTid(c)
    case Drawn(_) => Abandon(c)
    case Adding(tid, next) =>
      if tid in s.torrents && next == s.torrents[tid].count then Publish(c) else Emplace(c)
    case Swept(_) => LockRemove(c)
    case Removing(_) => LoadRemove(c)
    case Loaded(_, _) => StopTorrent(c)
  }

  /** A client that adds a torrent has not enqueued more than its pieces. */
  predicate WithinCount(s: State, c: Client) {
    c.Adding? ==> c.tid in s.torrents && c.next <= s.torrents[c.tid].count
  }

  lemma {:induction false} AddingWithinCount(s: State, c: nat)
    requires Inv(s) && c < |s.clients|
    ensures WithinCount(s, s.clients[c])
  {
    ClientInShape(s, c);
    if s.clients[c].Adding? {
      BooksAt(s, s.clients[c].tid);
    }
  }

  lemma {:induction false} ClientEnabled(s: State, c: nat)
    requires c < |s.clients| && ClientOk(s, s.clients[c]) && WithinCount(s, s.clients[c])
    requires s.clients[c].Swept? ==> NoExclusive(s)
    ensures Enabled(s, ClientNext(s, c))
  {
  }

  lemma {:induction false} ClientGoesOn(s: State, c: nat)
    requires Reachable(s) && c < |s.clients| && (s.clients[c].Swept? ==> NoExclusive(s))
    ensures Enabled(s, ClientNext(s, c)) && WithinCount(s, s.clients[c])
  {
    assert ClientOk(s, s.clients[c]) && WithinCount(s, s.clients[c]) by {
      ReachableInv(s);
      ClientInShape(s, c);
      AddingWithinCount(s, c);
    }
    ClientEnabled(s, c);
  }

  lemma {:induction false} ClientWaits(s: State, c: nat, step: Step)
    requires c < |s.clients| && ByClient(step, c) && Enabled(s, step)
    ensures s.clients[c].Swept? ==> NoExclusive(s)
  {
  }

  /**
   A client is blocked exactly if it has swept and wants the lock while another adds
   a torrent; a client that has drawn an identifier gets the lock exactly if nobody
   holds it.
   */
  lemma {:induction false} ClientBlockedExact(s: State, c: nat, count: nat, peers: nat)
    requires Reachable(s) && c < |s.clients|
    ensures (exists step :: ByClient(step, c) && Enabled(s, step)) <==> (s.clients[c].Swept? ==> NoExclusive(s))
    ensures Enabled(s, LockAdd(c, count, peers)) <==> s.clients[c].Drawn? && NoExclusive(s) && NoShared(s)
  {
    if s.clients[c].Swept? ==> NoExclusive(s) {
      ClientGoesOn(s, c);
      assert ByClient(ClientNext(s, c), c);
    }
    if step :| ByClient(step, c) && Enabled(s, step) {
      ClientWaits(s, c, step);
    }
  }

  /** A client that rests may begin to remove any torrent, known or not, and a known one may be paused at any time. */
  lemma {:induction false} AtAnyTime(s: State, c: nat, tid: nat, paused: bool)
    requires c < |s.clients|
    ensures s.clients[c].Resting? ==> Enabled(s, Sweep(c, tid)) && Enabled(s, ReadTid(c))
    ensures tid in s.torrents ==> Enabled(s, External(tid, paused))
  {
  }

  // ----- Leaving the lock -----

  /** Whoever did not hold the lock has not moved. */
  predicate Bystanders(s: State, r: State) {
    && |r.workers| == |s.workers| && |r.clients| == |s.clients|
    && (forall w | 0 <= w < |s.workers| && !WorkerShares(s.workers[w]) :: r.workers[w] == s.workers[w])
    && (forall c | 0 <= c < |s.clients| && !s.clients[c].Adding? && !ClientShares(s.clients[c]) ::
          r.clients[c] == s.clients[c])
  }

  lemma {:induction false} BystandersStill(s: State, m: State, r: State)
    requires Bystanders(s, m) && Bystanders(m, r)
    ensures Bystanders(s, r)
  {
  }

  lemma {:induction false} RunOn(s: State, step: Step, steps: seq<Step>)
    requires Enabled(s, step) && Legal(Next(s, step), steps)
    ensures Legal(s, [step] + steps) && End(s, [step] + steps) == End(Next(s, step), steps)
  {
    assert ([step] + steps)[1..] == steps;
  }

  lemma {:induction false} RunBoth(s: State, a: seq<Step>, b: seq<Step>)
    requires Legal(s, a) && Legal(End(s, a), b)
    ensures Legal(s, a + b) && End(s, a + b) == End(End(s, a), b)
    decreases |a|
  {
    if a == [] {
      assert a + b == b;
    } else {
      FirstOfBoth(a, b);
      RunBoth(Next(s, a[0]), a[1..], b);
    }
  }

  lemma {:induction false} RunAndStep(s: State, steps: seq<Step>, step: Step)
    requires Legal(s, steps) && Proper(s, steps) && Enabled(End(s, steps), step) && !step.LockAdd?
    ensures Legal(s, steps + [step]) && Proper(s, steps + [step])
    ensures End(s, steps + [step]) == Next(End(s, steps), step)
    decreases |steps|
  {
    if steps == [] {
      assert steps + [step] == [step] && [step][1..] == [];
    } else {
      FirstOfBoth(steps, [step]);
      RunAndStep(Next(s, steps[0]), steps[1..], step);
    }
  }

  lemma {:induction false} ReachableNext(s: State, step: Step)
    requires Reachable(s) && Enabled(s, step) && !step.LockAdd?
    ensures Reachable(Next(s, step))
  {
    var workers: nat, clients: nat, steps :| Leads(workers, clients, steps, s);
    RunAndStep(Init(workers, clients), steps, step);
    assert Leads(workers, clients, steps + [step], Next(s, step));
  }

  lemma {:induction false} AdderEffect(s: State, c: nat)
    requires c < |s.clients| && s.clients[c].Adding? && Enabled(s, ClientNext(s, c))
    ensures var step := ClientNext(s, c);
      !step.LockAdd? && Bystanders(s, Next(s, step)) && (step.Publish? || step.Emplace?)
  {
  }

  lemma {:induction false} Published(s: State, c: nat)
    requires LockOk(s) && c < |s.clients| && s.clients[c].Adding? && Enabled(s, Publish(c))
    ensures NoExclusive(Next(s, Publish(c)))
  {
  }

  lemma {:induction false} Emplaced(s: State, c: nat)
    requires Enabled(s, Emplace(c))
    ensures var r, tid := Next(s, Emplace(c)), s.clients[c].tid;
      && c < |r.clients| && r.clients[c] == Adding(tid, s.clients[c].next + 1)
      && tid in r.torrents && r.torrents[tid].count == s.torrents[tid].count
  {
  }

  /** A client that adds a torrent enqueues what is left of it, publishes it, and so leaves the lock. */
  lemma {:induction false} AddingEnds(s: State, c: nat) returns (steps: seq<Step>)
    requires Reachable(s) && c < |s.clients| && s.clients[c].Adding?
    ensures Legal(s, steps) && Reachable(End(s, steps)) && NoExclusive(End(s, steps)) && Bystanders(s, End(s, steps))
    ensures s.clients[c].tid in s.torrents
    ensures |steps| == s.torrents[s.clients[c].tid].count - s.clients[c].next + 1
    decreases if s.clients[c].tid in s.torrents then s.torrents[s.clients[c].tid].count - s.clients[c].next else 0
  {
    ClientGoesOn(s, c);
    AdderEffect(s, c);
    var step := ClientNext(s, c);
    ReachableNext(s, step);
    if step.Publish? {
      assert LockOk(s) by {
        ReachableInv(s);
      }
      Published(s, c);
      steps := [];
    } else {
      Emplaced(s, c);
      steps := AddingEnds(Next(s, step), c);
      BystandersStill(s, Next(s, step), End(Next(s, step), steps));
    }
    RunOn(s, step, steps);
    steps := [step] + steps;
  }

  /** How many steps a worker may still take before it leaves the lock. */
  function WorkerRank(worker: Worker): nat {
    match worker
    case Checking(_) => 2
    case Requeueing(_) => 1
    case Finishing(_, _) => 3
    case Scored(_) => 2
    case Counted(_, _) => 1
    case _ => 0
  }

  function ClientRank(client: Client): nat {
    match client
    case Removing(_) => 2
    case Loaded(_, _) => 1
    case _ => 0
  }

  function WorkerRanks(workers: seq<Worker>): seq<nat> {
    seq(|workers|, w requires 0 <= w < |workers| => WorkerRank(workers[w]))
  }

  function ClientRanks(clients: seq<Client>): seq<nat> {
    seq(|clients|, c requires 0 <= c < |clients| => ClientRank(clients[c]))
  }

  lemma {:induction false} WorkerRankMoves(workers: seq<Worker>, w: nat, to: Worker)
    requires w < |workers| && WorkerRank(to) < WorkerRank(workers[w])
    ensures Sum(WorkerRanks(workers[w := to])) < Sum(WorkerRanks(workers))
  {
    assert WorkerRanks(workers[w := to]) == WorkerRanks(workers)[w := WorkerRank(to)];
    SumUpdate(WorkerRanks(workers), w, WorkerRank(to));
  }

  lemma {:induction false} ClientRankMoves(clients: seq<Client>, c: nat, to: Client)
    requires c < |clients| && ClientRank(to) < ClientRank(clients[c])
    ensures Sum(ClientRanks(clients[c := to])) < Sum(ClientRanks(clients))
  {
    assert ClientRanks(clients[c := to]) == ClientRanks(clients)[c := ClientRank(to)];
    SumUpdate(ClientRanks(clients), c, ClientRank(to));
  }

  lemma {:induction false} SharerEffect(s: State, w: nat)
    requires w < |s.workers| && WorkerShares(s.workers[w]) && Enabled(s, WorkerNext(s.workers[w], w))
    ensures var r := Next(s, WorkerNext(s.workers[w], w));
      && r.clients == s.clients && w < |r.workers| && r.workers == s.workers[w := r.workers[w]]
      && WorkerRank(r.workers[w]) < WorkerRank(s.workers[w])
  {
  }

  lemma {:induction false} SharerSteps(s: State, w: nat)
    requires Reachable(s) && NoExclusive(s) && w < |s.workers| && WorkerShares(s.workers[w])
    ensures var step := WorkerNext(s.workers[w], w);
      && Enabled(s, step) && Reachable(Next(s, step)) && NoExclusive(Next(s, step)) && Bystanders(s, Next(s, step))
      && Next(s, step).clients == s.clients
      && Sum(WorkerRanks(Next(s, step).workers)) < Sum(WorkerRanks(s.workers))
  {
    var step := WorkerNext(s.workers[w], w);
    WorkerGoesOn(s, w);
    SharerEffect(s, w);
    ReachableNext(s, step);
    WorkerRankMoves(s.workers, w, Next(s, step).workers[w]);
  }

  lemma {:induction false} RemoverEffect(s: State, c: nat)
    requires c < |s.clients| && ClientShares(s.clients[c]) && Enabled(s, ClientNext(s, c))
    ensures var r := Next(s, ClientNext(s, c));
      && r.workers == s.workers && c < |r.clients| && r.clients == s.clients[c := r.clients[c]]
      && !r.clients[c].Adding? && ClientRank(r.clients[c]) < ClientRank(s.clients[c])
  {
  }

  lemma {:induction false} RemoverSteps(s: State, c: nat)
    requires Reachable(s) && NoExclusive(s) && c < |s.clients| && ClientShares(s.clients[c])
    ensures var step := ClientNext(s, c);
      && Enabled(s, step) && Reachable(Next(s, step)) && NoExclusive(Next(s, step)) && Bystanders(s, Next(s, step))
      && Next(s, step).workers == s.workers
      && Sum(ClientRanks(Next(s, step).clients)) < Sum(ClientRanks(s.clients))
  {
    var step := ClientNext(s, c);
    ClientGoesOn(s, c);
    RemoverEffect(s, c);
    ReachableNext(s, step);
    ClientRankMoves(s.clients, c, Next(s, step).clients[c]);
  }

  /** Those who share the lock finish and leave it. */
  lemma {:induction false} SharingEnds(s: State) returns (steps: seq<Step>)
    requires Reachable(s) && NoExclusive(s)
    ensures Legal(s, steps) && Reachable(End(s, steps)) && Bystanders(s, End(s, steps))
    ensures NoExclusive(End(s, steps)) && NoShared(End(s, steps))
    decreases Sum(WorkerRanks(s.workers)) + Sum(ClientRanks(s.clients)), 0
  {
    steps := [];
    if w: nat :| w < |s.workers| && WorkerShares(s.workers[w]) {
      SharerSteps(s, w);
      steps := AfterOne(s, WorkerNext(s.workers[w], w));
    } else if c: nat :| c < |s.clients| && ClientShares(s.clients[c]) {
      RemoverSteps(s, c);
      steps := AfterOne(s, ClientNext(s, c));
    }
  }

  lemma {:induction false} AfterOne(s: State, step: Step) returns (steps: seq<Step>)
    requires Enabled(s, step) && Reachable(Next(s, step)) && NoExclusive(Next(s, step)) && Bystanders(s, Next(s, step))
    ensures Legal(s, steps) && Reachable(End(s, steps)) && Bystanders(s, End(s, steps))
    ensures NoExclusive(End(s, steps)) && NoShared(End(s, steps))
    decreases Sum(WorkerRanks(Next(s, step).workers)) + Sum(ClientRanks(Next(s, step).clients)), 1
  {
    steps := SharingEnds(Next(s, step));
    BystandersStill(s, Next(s, step), End(Next(s, step), steps));
    RunOn(s, step, steps);
    steps := [step] + steps;
  }

  /** From every reachable state there is a run in which only holders of the lock move and all of them leave it. */
  lemma {:induction false} LockComesFree(s: State) returns (steps: seq<Step>)
    requires Reachable(s)
    ensures Legal(s, steps) && Reachable(End(s, steps)) && Bystanders(s, End(s, steps))
    ensures NoExclusive(End(s, steps)) && NoShared(End(s, steps))
  {
    steps := [];
    if c: nat :| c < |s.clients| && s.clients[c].Adding? {
      steps := AddingEnds(s, c);
    }
    var m := End(s, steps);
    var rest := SharingEnds(m);
    BystandersStill(s, m, End(m, rest));
    RunBoth(s, steps, rest);
    steps := steps + rest;
  }

  lemma {:induction false} WorkerHasTurn(s: State, r: State, w: nat)
    requires Reachable(r) && Bystanders(s, r) && NoExclusive(r)
    requires w < |s.workers| && (s.workers[w].Holding? || s.workers[w].Saved?)
    ensures Enabled(r, WorkerNext(s.workers[w], w))
  {
    assert r.workers[w] == s.workers[w];
    WorkerGoesOn(r, w);
  }

  lemma {:induction false} ClientHasTurn(s: State, r: State, c: nat, count: nat, peers: nat)
    requires Bystanders(s, r) && NoExclusive(r) && NoShared(r) && c < |s.clients|
    ensures s.clients[c].Swept? ==> Enabled(r, LockRemove(c))
    ensures s.clients[c].Drawn? ==> Enabled(r, LockAdd(c, count, peers))
  {
  }

  /** Nobody waits for the lock in vain: some run leads to a state in which each of those who wait can have it. */
  lemma {:induction false} WaitersGetTheLock(s: State, count: nat, peers: nat) returns (steps: seq<Step>)
    requires Reachable(s)
    ensures Legal(s, steps)
    ensures forall w: nat | w < |s.workers| && s.workers[w].Holding? :: Enabled(End(s, steps), LockCheck(w))
    ensures forall w: nat | w < |s.workers| && s.workers[w].Saved? :: Enabled(End(s, steps), LockFinish(w, 0))
    ensures forall c: nat | c < |s.clients| && s.clients[c].Drawn? :: Enabled(End(s, steps), LockAdd(c, count, peers))
    ensures forall c: nat | c < |s.clients| && s.clients[c].Swept? :: Enabled(End(s, steps), LockRemove(c))
  {
    steps := LockComesFree(s);
    forall w: nat | w < |s.workers| && (s.workers[w].Holding? || s.workers[w].Saved?)
      ensures Enabled(End(s, steps), WorkerNext(s.workers[w], w))
    {
      WorkerHasTurn(s, End(s, steps), w);
    }
    forall c: nat | c < |s.clients|
      ensures s.clients[c].Swept? ==> Enabled(End(s, steps), LockRemove(c))
      ensures s.clients[c].Drawn? ==> Enabled(End(s, steps), LockAdd(c, count, peers))
    {
      ClientHasTurn(s, End(s, steps), c, count, peers);
    }
  }
}
