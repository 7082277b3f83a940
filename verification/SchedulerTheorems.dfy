/**
 What holds in every interleaving of workers and clients that adds no torrent
 again: pieces are conserved, scores add up, a torrent completes at most once and
 only when it is complete, and a removal that swept a task is final even though
 the state it writes is not. Adding a torrent again doubles its pieces.
 */
module SchedulerTheorems {
  import opened Sequences
  import opened Scheduler
  import opened SchedulerInvariant
  import WorkQueue

  /** The mutation `remove_torrent` hands to the queue: remove the tasks of one torrent. */
  function TasksOf(tid: nat): WorkQueue.Mutation<Task> {
    (task: Task) => (task, task.tid == tid)
  }

  /** The sweep step is the queue's own mutation. */
  lemma {:induction false} SweepIsMutate(queue: seq<Task>, tid: nat)
    ensures WorkQueue.Kept(queue, TasksOf(tid)) == Others(queue, tid)
  {
    if queue != [] {
      SweepIsMutate(queue[1..], tid);
    }
  }

  /** Taking a task is the queue's own extraction with the policy called LIFO. */
  lemma {:induction false} TakeIsExtract(s: State, w: nat)
    requires Enabled(s, Take(w))
    ensures WorkQueue.Extracted(s.queue, WorkQueue.LIFO()) ==
            (WorkQueue.Item(Next(s, Take(w)).workers[w].task), Next(s, Take(w)).queue)
  {
    WorkQueue.LIFOTakesOldest(s.queue[0], s.queue[1..]);
    HeadRest(s.queue);
  }

  // ----- First come, first served -----

  /** A task enters the queue at the back, when it is added and when it is put back. */
  lemma {:induction false} EmplaceIsInsert(s: State, step: Step)
    requires Enabled(s, step)
    ensures step.Emplace? ==> Next(s, step).queue == s.queue + [Task(s.clients[step.c].tid, s.clients[step.c].next)]
    ensures step.Requeue? ==> Next(s, step).queue == s.queue + [s.workers[step.w].task]
  {
  }

  /** The tasks a step puts into the queue and the one it takes out. */
  function EnteredBy(s: State, step: Step): seq<Task>
    requires Enabled(s, step)
  {
    if step.Emplace? then [Task(s.clients[step.c].tid, s.clients[step.c].next)]
    else if step.Requeue? then [s.workers[step.w].task]
    else []
  }

  function TakenBy(s: State, step: Step): seq<Task>
    requires Enabled(s, step)
  {
    if step.Take? then [Next(s, step).workers[step.w].task] else []
  }

  function Entered(s: State, steps: seq<Step>): seq<Task>
    requires Legal(s, steps)
    decreases |steps|
  {
    if steps == [] then [] else EnteredBy(s, steps[0]) + Entered(Next(s, steps[0]), steps[1..])
  }

  function Taken(s: State, steps: seq<Step>): seq<Task>
    requires Legal(s, steps)
    decreases |steps|
  {
    if steps == [] then [] else TakenBy(s, steps[0]) + Taken(Next(s, steps[0]), steps[1..])
  }

  /** Every other step leaves the queue alone. */
  lemma {:induction false} QueueStays(s: State, step: Step)
    requires Enabled(s, step) && !step.Sweep? && !step.Take? && !step.Emplace? && !step.Requeue?
    ensures Next(s, step).queue == s.queue
  {
  }

  lemma {:induction false} TakenFromFront(s: State, w: nat)
    requires Enabled(s, Take(w))
    ensures TakenBy(s, Take(w)) + Next(s, Take(w)).queue == s.queue
  {
    HeadRest(s.queue);
  }

  lemma {:induction false} StepInOrder(s: State, step: Step)
    requires Enabled(s, step) && !step.Sweep?
    ensures TakenBy(s, step) + Next(s, step).queue == s.queue + EnteredBy(s, step)
  {
    if step.Take? {
      TakenFromFront(s, step.w);
    } else if step.Emplace? || step.Requeue? {
      EmplaceIsInsert(s, step);
    } else {
      QueueStays(s, step);
    }
  }

  /** In every run without a removal, tasks leave the queue in the order in which they entered it. */
  lemma {:induction false} FirstComeFirstServed(s: State, steps: seq<Step>)
    requires Legal(s, steps) && forall i | 0 <= i < |steps| :: !steps[i].Sweep?
    ensures Taken(s, steps) + End(s, steps).queue == s.queue + Entered(s, steps)
    decreases |steps|
  {
    if steps == [] {
      assert [] + s.queue == s.queue + [];
    } else {
      var next, rest := Next(s, steps[0]), steps[1..];
      assert forall i | 0 <= i < |rest| :: rest[i] == steps[i + 1];
      FirstComeFirstServed(next, rest);
      StepInOrder(s, steps[0]);
      Associative(TakenBy(s, steps[0]), Taken(next, rest), End(next, rest).queue);
      Associative(TakenBy(s, steps[0]), next.queue, Entered(next, rest));
      Associative(s.queue, EnteredBy(s, steps[0]), Entered(next, rest));
    }
  }

  // ----- What single steps decide -----

  /** A worker puts its task back exactly if the torrent is paused, and processes it otherwise. */
  lemma {:induction false} PausedIsRequeued(s: State, w: nat)
    requires Enabled(s, LoadState(w))
    ensures var task := s.workers[w].task;
      Next(s, LoadState(w)).workers[w] ==
      if s.torrents[task.tid].state == Paused then Requeueing(task) else Processing(task)
  {
  }

  /**
   Adding under the lock: a torrent that was not there enters with its pieces
   and a score of one for each peer. Without peers it is marked as an error and
   the client leaves; with peers the client starts at its first piece.
   */
  lemma {:induction false} AddedExact(s: State, c: nat, count: nat, peers: nat)
    requires Enabled(s, LockAdd(c, count, peers))
    ensures var r, tid := Next(s, LockAdd(c, count, peers)), s.clients[c].tid;
      && tid in r.torrents && r.queue == s.queue
      && (tid !in s.torrents ==>
           && r.torrents[tid].count == count && r.torrents[tid].processed == 0 && |r.torrents[tid].scores| == peers
           && (forall q | 0 <= q < peers :: r.torrents[tid].scores[q] == 1)
           && r.torrents[tid].state == if peers == 0 then Errored else Loading)
      && (if r.torrents[tid].scores == [] then r.clients[c] == Resting && r.torrents[tid].state == Errored
          else r.clients[c] == Adding(tid, 0))
  {
  }

  /** Publishing a torrent sets it downloading, and its client is done. */
  lemma {:induction false} PublishedExact(s: State, c: nat)
    requires Enabled(s, Publish(c))
    ensures var r := Next(s, Publish(c));
      r.torrents[s.clients[c].tid].state == Downloading && r.clients[c] == Resting && r.queue == s.queue
  {
  }

  /** A removal writes Stopped exactly if it saw neither Completed nor an error, and else leaves the state alone. */
  lemma {:induction false} StoppedExact(s: State, c: nat)
    requires Enabled(s, StopTorrent(c))
    ensures var tid, seen := s.clients[c].tid, s.clients[c].seen;
      Next(s, StopTorrent(c)).torrents[tid].state ==
      if seen == Completed || seen == Errored then s.torrents[tid].state else Stopped
  {
  }

  /** Removing a torrent that does not exist creates an empty one, marked as an error. */
  lemma {:induction false} UnknownRemoved(s: State, c: nat)
    requires Enabled(s, LockRemove(c)) && s.clients[c].tid !in s.torrents
    ensures var r, tid := Next(s, LockRemove(c)), s.clients[c].tid;
      && tid in r.torrents && r.torrents[tid].state == Errored
      && r.torrents[tid].count == 0 && r.torrents[tid].scores == []
  {
  }

  // ----- Scores -----

  /** Whether a step rewards peer `q` of a torrent. */
  predicate Rewards(s: State, step: Step, tid: nat, q: nat)
    requires Enabled(s, step)
  {
    step.Score? && s.workers[step.w].task.tid == tid && s.workers[step.w].peer == q
  }

  /** How often a run rewards peer `q` of a torrent. */
  function RewardsIn(s: State, steps: seq<Step>, tid: nat, q: nat): nat
    requires Legal(s, steps)
    decreases |steps|
  {
    if steps == [] then 0
    else One(Rewards(s, steps[0], tid, q)) + RewardsIn(Next(s, steps[0]), steps[1..], tid, q)
  }

  /** The score of a peer, which is one before its torrent is there. */
  function ScoreOf(s: State, tid: nat, q: nat): nat {
    if tid in s.torrents && q < |s.torrents[tid].scores| then s.torrents[tid].scores[q] else 1
  }

  /** A reward goes to the peer that was used and to no other. */
  lemma {:induction false} ScoreExact(s: State, w: nat, q: nat)
    requires Enabled(s, Score(w)) && q < |s.torrents[s.workers[w].task.tid].scores|
    ensures var tid := s.workers[w].task.tid;
      && |Next(s, Score(w)).torrents[tid].scores| == |s.torrents[tid].scores|
      && Next(s, Score(w)).torrents[tid].scores[q] == s.torrents[tid].scores[q] + One(q == s.workers[w].peer)
  {
  }

  lemma {:induction false} PeersStay(s: State, step: Step, tid: nat)
    requires Enabled(s, step) && tid in s.torrents
    ensures tid in Next(s, step).torrents && |Next(s, step).torrents[tid].scores| == |s.torrents[tid].scores|
  {
  }

  lemma {:induction false} OtherScores(s: State, step: Step, tid: nat)
    requires Enabled(s, step) && tid in s.torrents && !step.Score?
    ensures tid in Next(s, step).torrents && Next(s, step).torrents[tid].scores == s.torrents[tid].scores
  {
  }

  lemma {:induction false} NewScores(s: State, step: Step, tid: nat, q: nat)
    requires Enabled(s, step) && tid !in s.torrents
    ensures ScoreOf(Next(s, step), tid, q) == 1
  {
  }

  lemma {:induction false} StepScores(s: State, step: Step, tid: nat, q: nat)
    requires Enabled(s, step) && (tid in s.torrents ==> q < |s.torrents[tid].scores|)
    ensures ScoreOf(Next(s, step), tid, q) == ScoreOf(s, tid, q) + One(Rewards(s, step, tid, q))
  {
    if tid !in s.torrents {
      NewScores(s, step, tid, q);
    } else if !step.Score? {
      OtherScores(s, step, tid);
    } else if s.workers[step.w].task.tid == tid {
      ScoreExact(s, step.w, q);
    }
  }

  lemma {:induction false} PeersLast(s: State, steps: seq<Step>, tid: nat)
    requires Legal(s, steps) && tid in s.torrents
    ensures tid in End(s, steps).torrents && |End(s, steps).torrents[tid].scores| == |s.torrents[tid].scores|
    decreases |steps|
  {
    if steps != [] {
      PeersStay(s, steps[0], tid);
      PeersLast(Next(s, steps[0]), steps[1..], tid);
    }
  }

  /** In every run the score of a peer grows by the number of pieces it was rewarded for, starting from one. */
  lemma {:induction false} ScoresExact(s: State, steps: seq<Step>, tid: nat, q: nat)
    requires Legal(s, steps) && tid in End(s, steps).torrents && q < |End(s, steps).torrents[tid].scores|
    ensures ScoreOf(End(s, steps), tid, q) == ScoreOf(s, tid, q) + RewardsIn(s, steps, tid, q)
    decreases |steps|
  {
    if steps != [] {
      if tid in s.torrents {
        PeersLast(s, steps, tid);
      }
      StepScores(s, steps[0], tid, q);
      ScoresExact(Next(s, steps[0]), steps[1..], tid, q);
    }
  }

  /** From the start: the score of every peer is one more than the number of its rewards. */
  lemma {:induction false} ScoreCounts(workers: nat, clients: nat, steps: seq<Step>, tid: nat, q: nat)
    requires var s := Init(workers, clients);
      Legal(s, steps) && tid in End(s, steps).torrents && q < |End(s, steps).torrents[tid].scores|
    ensures var s := Init(workers, clients);
      End(s, steps).torrents[tid].scores[q] == 1 + RewardsIn(s, steps, tid, q)
  {
    ScoresExact(Init(workers, clients), steps, tid, q);
  }

  // ----- What every interleaving keeps -----

  function Queued(s: State, tid: nat): multiset<nat> {
    PiecesOf(s.queue, tid)
  }

  function Held(s: State, tid: nat): multiset<nat> {
    HeldBy(s.workers, tid)
  }

  /** In how many places a piece of a torrent is: queued, held, counted or swept away. */
  function Places(s: State, tid: nat, k: nat): nat
    requires tid in s.torrents
  {
    Queued(s, tid)[k] + Held(s, tid)[k] + s.torrents[tid].done[k] + s.torrents[tid].dropped[k]
  }

  /**
   In every reachable state each piece of a torrent that has been fully enqueued
   is in exactly one of four places: queued, held by one worker, counted, or
   swept away by a removal.
   */
  lemma {:induction false} Conservation(s: State, tid: nat)
    requires Reachable(s) && tid in s.torrents && s.torrents[tid].published
    ensures var t := s.torrents[tid];
      && (forall k: nat :: Places(s, tid, k) == One(k < t.count))
      && |Queued(s, tid)| + |Held(s, tid)| + t.processed + |t.dropped| == t.count
  {
    ReachableInv(s);
    var t := s.torrents[tid];
    BooksAt(s, tid);
    BagSizes(Queued(s, tid), Held(s, tid), t.done, t.dropped);
    forall k: nat
      ensures Places(s, tid, k) == One(k < t.count)
    {
      PlacesInBooks(s, tid, k);
    }
  }

  lemma {:induction false} BagSizes(a: multiset<nat>, b: multiset<nat>, c: multiset<nat>, d: multiset<nat>)
    ensures |a + b + c + d| == |a| + |b| + |c| + |d|
  {
  }

  lemma {:induction false} PlacesInBooks(s: State, tid: nat, k: nat)
    requires tid in s.torrents && TorrentOk(s, tid)
    ensures Places(s, tid, k) == One(k < s.torrents[tid].enqueued)
  {
    var t := s.torrents[tid];
    assert (Queued(s, tid) + Held(s, tid) + t.done + t.dropped)[k] == Range(t.enqueued)[k];
  }

  /**
   A worker past `try_extract` always finds its torrent in the map, past the lock
   it finds it published and with peers: the lookups of `thread_main` never
   insert, and there is always a peer to draw.
   */
  lemma {:induction false} WorkersFindTheirTorrent(s: State, w: nat)
    requires Reachable(s) && w < |s.workers| && Carries(s.workers[w])
    ensures s.workers[w].task.tid in s.torrents
    ensures s.workers[w].task.piece < s.torrents[s.workers[w].task.tid].count
    ensures s.torrents[s.workers[w].task.tid].scores != []
    ensures !s.workers[w].Holding? ==> s.torrents[s.workers[w].task.tid].published
  {
    ReachableInv(s);
    WorkerInShape(s, w);
    BooksAt(s, s.workers[w].task.tid);
    CarriedIsOpen(s, w, s.workers[w].task.tid);
  }

  /** The peer scores of a torrent add up to its peers, its processed pieces and the workers in between. */
  lemma {:induction false} ScoresAddUp(s: State, tid: nat)
    requires Reachable(s) && tid in s.torrents
    ensures Sum(s.torrents[tid].scores) ==
            |s.torrents[tid].scores| + s.torrents[tid].processed + ScoredBy(s.workers, tid)
  {
    ReachableInv(s);
    BooksAt(s, tid);
  }

  /** When all pieces are counted, every index is done and none is anywhere else. */
  lemma {:induction false} AllDone(t: Torrent, q: multiset<nat>, h: multiset<nat>, scored: nat, pending: nat)
    requires Balanced(t, q, h, scored, pending) && t.processed == t.count
    ensures t.done == Range(t.count) && q == multiset{} && h == multiset{} && t.dropped == multiset{}
  {
    assert |q + h + t.done + t.dropped| == |q| + |h| + |t.done| + |t.dropped|;
    assert |q| == 0 && |h| == 0 && |t.dropped| == 0;
    assert q + h + t.done + t.dropped == t.done;
  }

  lemma {:induction false} PendingPositive(workers: seq<Worker>, w: nat, tid: nat, count: nat)
    requires w < |workers| && AboutToComplete(workers[w], tid, count)
    ensures PendingBy(workers, tid, count) > 0
  {
    if w > 0 {
      PendingPositive(workers[1..], w - 1, tid, count);
    }
  }

  /**
   A worker writes Completed at most once per torrent, only after the torrent was
   published as Downloading, and only when every piece index has been counted
   and none of its tasks is queued or held.
   */
  lemma {:induction false} CompletedOnce(s: State, w: nat)
    requires Reachable(s) && Enabled(s, Compare(w))
    requires s.workers[w].value == s.torrents[s.workers[w].task.tid].count
    ensures var tid := s.workers[w].task.tid;
      var t := s.torrents[tid];
      && t.completions == 0 && t.published
      && t.done == Range(t.count) && Queued(s, tid) == multiset{} && Held(s, tid) == multiset{}
      && Next(s, Compare(w)).torrents[tid].state == Completed && Next(s, Compare(w)).torrents[tid].completions == 1
  {
    ReachableInv(s);
    var tid := s.workers[w].task.tid;
    var t := s.torrents[tid];
    BooksAt(s, tid);
    PendingPositive(s.workers, w, tid, t.count);
    AllDone(t, Queued(s, tid), Held(s, tid), ScoredBy(s.workers, tid), PendingBy(s.workers, tid, t.count));
  }

  /** No torrent is ever completed twice, and one that was completed has all its pieces. */
  lemma {:induction false} CompletedMeansDone(s: State, tid: nat)
    requires Reachable(s) && tid in s.torrents
    ensures s.torrents[tid].completions <= 1
    ensures s.torrents[tid].state.Completed? ==> s.torrents[tid].completions == 1
    ensures s.torrents[tid].completions == 1 ==> s.torrents[tid].done == Range(s.torrents[tid].count)
  {
    ReachableInv(s);
    BooksAt(s, tid);
    var t := s.torrents[tid];
    if t.completions == 1 {
      AllDone(t, Queued(s, tid), Held(s, tid), ScoredBy(s.workers, tid), PendingBy(s.workers, tid, t.count));
    }
  }

  /** Torrents stay in the map and what was dropped stays dropped. */
  lemma {:induction false} StepKeepsDropped(s: State, step: Step, tid: nat)
    requires Enabled(s, step) && tid in s.torrents
    ensures tid in Next(s, step).torrents && s.torrents[tid].dropped <= Next(s, step).torrents[tid].dropped
  {
  }

  lemma {:induction false} RunKeepsDropped(s: State, steps: seq<Step>, tid: nat)
    requires Legal(s, steps) && tid in s.torrents
    ensures tid in End(s, steps).torrents && s.torrents[tid].dropped <= End(s, steps).torrents[tid].dropped
    decreases |steps|
  {
    if steps != [] {
      StepKeepsDropped(s, steps[0], tid);
      RunKeepsDropped(Next(s, steps[0]), steps[1..], tid);
    }
  }

  /**
   Once a removal has swept at least one queued task of a torrent, no later
   interleaving completes that torrent.
   */
  lemma {:induction false} RemovedNeverCompletes(s: State, tid: nat, steps: seq<Step>)
    requires Reachable(s) && tid in s.torrents && s.torrents[tid].dropped != multiset{}
    requires Legal(s, steps) && Proper(s, steps)
    ensures tid in End(s, steps).torrents
    ensures End(s, steps).torrents[tid].completions == 0 && !End(s, steps).torrents[tid].state.Completed?
    ensures End(s, steps).torrents[tid].processed < End(s, steps).torrents[tid].count
  {
    ReachableInv(s);
    RunInv(s, steps);
    RunKeepsDropped(s, steps, tid);
    DroppedHere(End(s, steps), tid);
  }

  lemma {:induction false} DroppedHere(s: State, tid: nat)
    requires Inv(s) && tid in s.torrents && s.torrents[tid].dropped != multiset{}
    ensures s.torrents[tid].completions == 0 && !s.torrents[tid].state.Completed?
    ensures s.torrents[tid].processed < s.torrents[tid].count
  {
    BooksAt(s, tid);
    var t := s.torrents[tid];
    DroppedBalanced(t, Queued(s, tid), Held(s, tid), ScoredBy(s.workers, tid), PendingBy(s.workers, tid, t.count));
  }

  lemma {:induction false} DroppedBalanced(t: Torrent, q: multiset<nat>, h: multiset<nat>, scored: nat, pending: nat)
    requires Balanced(t, q, h, scored, pending) && t.dropped != multiset{}
    ensures t.completions == 0 && !t.state.Completed? && t.processed < t.count
  {
    assert |q + h + t.done + t.dropped| == |q| + |h| + |t.done| + |t.dropped|;
    assert |t.dropped| > 0;
  }

  /** The removing client saw a state that was neither Completed nor an error. */
  predicate SawUnfinished(s: State, c: nat, tid: nat) {
    c < |s.clients| && s.clients[c].Loaded? && s.clients[c].tid == tid &&
    !s.clients[c].seen.Completed? && !s.clients[c].seen.Errored?
  }

  lemma {:induction false} CompletedFacts(s: State, tid: nat)
    requires Inv(s) && tid in s.torrents && s.torrents[tid].state.Completed?
    ensures s.torrents[tid].published && s.torrents[tid].scores != []
    ensures forall c | 0 <= c < |s.clients| && s.clients[c].Adding? :: s.clients[c].tid != tid
  {
    BooksAt(s, tid);
    OwnerInShape(s, tid);
    forall c | 0 <= c < |s.clients| && s.clients[c].Adding?
      ensures s.clients[c].tid != tid
    {
      ClientInShape(s, c);
    }
  }

  /** A removal that saw an unfinished state, pausing or resuming, or publishing the torrent again. */
  predicate Overwrites(s: State, step: Step, tid: nat) {
    || (step.StopTorrent? && SawUnfinished(s, step.c, tid))
    || (step.External? && step.tid == tid)
    || (step.Publish? && step.c < |s.clients| && s.clients[step.c].Adding? && s.clients[step.c].tid == tid)
  }

  /** What overwrites Completed, in any state whatsoever of a torrent with peers. */
  lemma {:induction false} OnlyTheseOverwrite(s: State, tid: nat, step: Step)
    requires tid in s.torrents && s.torrents[tid].state.Completed? && s.torrents[tid].scores != [] && Enabled(s, step)
    ensures tid in Next(s, step).torrents
    ensures !Next(s, step).torrents[tid].state.Completed? <==> Overwrites(s, step, tid)
  {
  }

  /**
   Completed is not final. It is overwritten exactly by a removal that had
   already seen an unfinished state, and by pausing or resuming.
   */
  lemma {:induction false} CompletedLost(s: State, tid: nat, step: Step)
    requires Reachable(s) && tid in s.torrents && s.torrents[tid].state.Completed? && Enabled(s, step)
    ensures tid in Next(s, step).torrents
    ensures !Next(s, step).torrents[tid].state.Completed? <==>
            (step.StopTorrent? && SawUnfinished(s, step.c, tid)) || (step.External? && step.tid == tid)
  {
    ReachableInv(s);
    CompletedFacts(s, tid);
    OnlyTheseOverwrite(s, tid, step);
  }

  // ----- Pausing, rewarding and giving up -----

  /** A worker that looks after a pause puts its task back; one that looks after a resumption processes it. */
  lemma {:induction false} PauseTakesEffect(s: State, w: nat, tid: nat, paused: bool)
    requires Enabled(s, External(tid, paused)) && Enabled(s, LoadState(w)) && s.workers[w].task.tid == tid
    ensures Enabled(Next(s, External(tid, paused)), LoadState(w))
    ensures var task := s.workers[w].task;
      Next(Next(s, External(tid, paused)), LoadState(w)).workers[w] ==
      if paused then Requeueing(task) else Processing(task)
  {
    var r := Next(s, External(tid, paused));
    assert r.workers == s.workers && r.torrents[tid].state.Paused? == paused;
    assert Known(r, tid);
  }

  /** The peer that served a piece is the one rewarded for it. */
  lemma {:induction false} ServingPeerRewarded(s: State, w: nat, peer: nat)
    requires Enabled(s, LockFinish(w, peer))
    ensures Enabled(Next(s, LockFinish(w, peer)), Score(w))
    ensures var tid, was := s.workers[w].task.tid, s.torrents[s.workers[w].task.tid].scores;
      var r := Next(Next(s, LockFinish(w, peer)), Score(w));
      tid in r.torrents && r.torrents[tid].scores == was[peer := was[peer] + 1]
  {
    var locked := Next(s, LockFinish(w, peer));
    assert locked.torrents == s.torrents && locked.workers[w] == Finishing(s.workers[w].task, peer);
  }

  /** A client that gives its torrent up can draw again, and has changed nothing else. */
  lemma {:induction false} GivenUp(s: State, c: nat)
    requires Enabled(s, Abandon(c))
    ensures var r := Next(s, Abandon(c));
      && r.(clients := s.clients) == s && Enabled(r, ReadTid(c))
      && (forall d | 0 <= d < |s.clients| && d != c :: d < |r.clients| && r.clients[d] == s.clients[d])
  {
  }

  // ----- Adding a torrent again -----

  lemma {:induction false} FirstOfTorrent(s: State, c: nat)
    requires Inv(s) && Enabled(s, Emplace(c)) && s.clients[c].next == 0
    ensures Places(Next(s, Emplace(c)), s.clients[c].tid, 0) == 1
  {
    var tid, r := s.clients[c].tid, AfterEmplace(s, c);
    ClientInShape(s, c);
    EmplaceInv(s, c);
    BooksAt(r, tid);
    PlacesInBooks(r, tid, 0);
  }

  lemma {:induction false} AddedOnce(s: State, c: nat, count: nat, peers: nat)
    requires Inv(s) && Enabled(s, LockAdd(c, count, peers)) && !Readmits(s, LockAdd(c, count, peers))
    requires Enabled(Next(s, LockAdd(c, count, peers)), Emplace(c))
    ensures var two := Next(Next(s, LockAdd(c, count, peers)), Emplace(c));
      s.clients[c].tid in two.torrents && Places(two, s.clients[c].tid, 0) == 1
  {
    LockAddInv(s, c, count, peers);
    FirstOfTorrent(AfterLockAdd(s, c, count, peers), c);
  }

  lemma {:induction false} EnqueuedAgain(s: State, r: State, tid: nat)
    requires tid in s.torrents && tid in r.torrents && r.queue == s.queue + [Task(tid, 0)] && r.workers == s.workers
    requires r.torrents[tid].done == s.torrents[tid].done && r.torrents[tid].dropped == s.torrents[tid].dropped
    ensures Places(r, tid, 0) == Places(s, tid, 0) + 1
  {
    PiecesOfAppend(s.queue, Task(tid, 0), tid);
  }

  lemma {:induction false} ThereOnce(s: State, tid: nat)
    requires Reachable(s) && NoExclusive(s) && tid in s.torrents && s.torrents[tid].scores != [] &&
             s.torrents[tid].count > 0
    ensures Places(s, tid, 0) == 1
  {
    ReachableInv(s);
    PeersMeanPublished(s, tid);
    Conservation(s, tid);
  }

  lemma {:induction false} AddedTwice(s: State, c: nat, count: nat, peers: nat)
    requires Reachable(s) && Enabled(s, LockAdd(c, count, peers)) && Readmits(s, LockAdd(c, count, peers))
    ensures Enabled(Next(s, LockAdd(c, count, peers)), Emplace(c))
    ensures var two := Next(Next(s, LockAdd(c, count, peers)), Emplace(c));
      s.clients[c].tid in two.torrents && Places(two, s.clients[c].tid, 0) == 2
  {
    ThereOnce(s, s.clients[c].tid);
    EnqueuedAgain(s, AfterEmplace(AfterLockAdd(s, c, count, peers), c), s.clients[c].tid);
  }

  /**
   Exactly when adding breaks conservation: once the client that took the lock
   has enqueued its first task, piece 0 is in two places if the torrent was
   there with peers and pieces, and in one place otherwise.
   */
  lemma {:induction false} AddExact(s: State, c: nat, count: nat, peers: nat)
    requires Reachable(s) && Enabled(s, LockAdd(c, count, peers))
    requires Enabled(Next(s, LockAdd(c, count, peers)), Emplace(c))
    ensures var two := Next(Next(s, LockAdd(c, count, peers)), Emplace(c));
      && s.clients[c].tid in two.torrents
      && Places(two, s.clients[c].tid, 0) == if Readmits(s, LockAdd(c, count, peers)) then 2 else 1
  {
    if Readmits(s, LockAdd(c, count, peers)) {
      AddedTwice(s, c, count, peers);
    } else {
      ReachableInv(s);
      AddedOnce(s, c, count, peers);
    }
  }
}
