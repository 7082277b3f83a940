/**
 The invariant of the scheduler: for every torrent the books balance, and every
 worker and client is where the locks allow it. Each step keeps it.
 */
module SchedulerInvariant {
  import opened Scheduler

  // ----- Counting -----

  function One(b: bool): nat {
    if b then 1 else 0
  }

  /** The task of a worker whose piece is neither in the queue nor counted. */
  predicate Carries(w: Worker) {
    !w.Idle? && !w.Counted?
  }

  function Carried(w: Worker, tid: nat): multiset<nat> {
    if Carries(w) && w.task.tid == tid then multiset{w.task.piece} else multiset{}
  }

  /** The pieces of one torrent that workers hold. */
  function HeldBy(workers: seq<Worker>, tid: nat): multiset<nat> {
    if workers == [] then multiset{} else Carried(workers[0], tid) + HeldBy(workers[1..], tid)
  }

  predicate BetweenScoreAndCount(w: Worker, tid: nat) {
    w.Scored? && w.task.tid == tid
  }

  /** Workers between the score increment and the processed increment of a torrent. */
  function ScoredBy(workers: seq<Worker>, tid: nat): nat {
    if workers == [] then 0 else One(BetweenScoreAndCount(workers[0], tid)) + ScoredBy(workers[1..], tid)
  }

  predicate AboutToComplete(w: Worker, tid: nat, count: nat) {
    w.Counted? && w.task.tid == tid && w.value == count
  }

  function PendingBy(workers: seq<Worker>, tid: nat, count: nat): nat {
    if workers == [] then 0 else One(AboutToComplete(workers[0], tid, count)) + PendingBy(workers[1..], tid, count)
  }

  lemma {:induction false} BagShift(a: multiset<nat>, b: multiset<nat>, x: multiset<nat>, c: multiset<nat>,
                                    y: multiset<nat>)
    requires b + x == c + y
    ensures (a + b) + x == (a + c) + y
  {
    assert (a + b) + x == a + (b + x);
    assert (a + c) + y == a + (c + y);
  }

  lemma {:induction false} HeldMoves(workers: seq<Worker>, w: nat, to: Worker, tid: nat)
    requires w < |workers|
    ensures HeldBy(workers[w := to], tid) + Carried(workers[w], tid) == HeldBy(workers, tid) + Carried(to, tid)
  {
    if w == 0 {
      assert workers[0 := to][1..] == workers[1..];
    } else {
      HeldMoves(workers[1..], w - 1, to, tid);
      assert workers[w := to][1..] == workers[1..][w - 1 := to];
      BagShift(Carried(workers[0], tid), HeldBy(workers[1..][w - 1 := to], tid), Carried(workers[w], tid),
               HeldBy(workers[1..], tid), Carried(to, tid));
    }
  }

  lemma {:induction false} ScoredMoves(workers: seq<Worker>, w: nat, to: Worker, tid: nat)
    requires w < |workers|
    ensures ScoredBy(workers[w := to], tid) + One(BetweenScoreAndCount(workers[w], tid)) ==
            ScoredBy(workers, tid) + One(BetweenScoreAndCount(to, tid))
  {
    if w == 0 {
      assert workers[0 := to][1..] == workers[1..];
    } else {
      ScoredMoves(workers[1..], w - 1, to, tid);
      assert workers[w := to][1..] == workers[1..][w - 1 := to];
    }
  }

  lemma {:induction false} PendingMoves(workers: seq<Worker>, w: nat, to: Worker, tid: nat, count: nat)
    requires w < |workers|
    ensures PendingBy(workers[w := to], tid, count) + One(AboutToComplete(workers[w], tid, count)) ==
            PendingBy(workers, tid, count) + One(AboutToComplete(to, tid, count))
  {
    if w == 0 {
      assert workers[0 := to][1..] == workers[1..];
    } else {
      PendingMoves(workers[1..], w - 1, to, tid, count);
      assert workers[w := to][1..] == workers[1..][w - 1 := to];
    }
  }

  /** Moving one worker changes the counts by that worker alone. */
  lemma {:induction false} WorkerMoves(workers: seq<Worker>, w: nat, to: Worker, tid: nat, count: nat)
    requires w < |workers|
    ensures HeldBy(workers[w := to], tid) + Carried(workers[w], tid) == HeldBy(workers, tid) + Carried(to, tid)
    ensures ScoredBy(workers[w := to], tid) + One(BetweenScoreAndCount(workers[w], tid)) ==
            ScoredBy(workers, tid) + One(BetweenScoreAndCount(to, tid))
    ensures PendingBy(workers[w := to], tid, count) + One(AboutToComplete(workers[w], tid, count)) ==
            PendingBy(workers, tid, count) + One(AboutToComplete(to, tid, count))
  {
    HeldMoves(workers, w, to, tid);
    ScoredMoves(workers, w, to, tid);
    PendingMoves(workers, w, to, tid, count);
  }

  lemma {:induction false} PiecesOfAppend(queue: seq<Task>, t: Task, tid: nat)
    ensures PiecesOf(queue + [t], tid) ==
            PiecesOf(queue, tid) + if t.tid == tid then multiset{t.piece} else multiset{}
  {
    if queue == [] {
      assert (queue + [t])[1..] == [];
    } else {
      assert (queue + [t])[1..] == queue[1..] + [t];
      PiecesOfAppend(queue[1..], t, tid);
    }
  }

  lemma {:induction false} SweepKeepsOthers(queue: seq<Task>, tid: nat, other: nat)
    ensures PiecesOf(Others(queue, tid), other) == if other == tid then multiset{} else PiecesOf(queue, other)
    ensures forall t :: t in Others(queue, tid) ==> t in queue
  {
    if queue != [] {
      SweepKeepsOthers(queue[1..], tid, other);
      if queue[0].tid != tid {
        assert ([queue[0]] + Others(queue[1..], tid))[1..] == Others(queue[1..], tid);
      } else {
        assert [] + Others(queue[1..], tid) == Others(queue[1..], tid);
      }
    }
  }

  /** The first `n` piece indices, each once. */
  function Range(n: nat): (r: multiset<nat>)
    ensures |r| == n
    ensures forall k: nat :: r[k] == One(k < n)
  {
    if n == 0 then multiset{} else Range(n - 1) + multiset{n - 1}
  }

  function Sum(xs: seq<nat>): nat {
    if xs == [] then 0 else xs[0] + Sum(xs[1..])
  }

  lemma {:induction false} SumUpdate(xs: seq<nat>, i: nat, x: nat)
    requires i < |xs|
    ensures Sum(xs[i := x]) + xs[i] == Sum(xs) + x
  {
    if i == 0 {
      assert xs[0 := x][1..] == xs[1..];
    } else {
      SumUpdate(xs[1..], i - 1, x);
      assert xs[i := x][1..] == xs[1..][i - 1 := x];
    }
  }

  lemma {:induction false} SumOnes(n: nat)
    ensures Sum(seq(n, _ => 1)) == n
  {
    if n > 0 {
      assert seq(n, _ => 1)[1..] == seq(n - 1, _ => 1);
      SumOnes(n - 1);
    }
  }

  // ----- The invariant -----

  /** The books of one torrent balance. */
  predicate Balanced(t: Torrent, queued: multiset<nat>, held: multiset<nat>, scored: nat, pending: nat) {
    // every piece ever enqueued is in exactly one place
    && queued + held + t.done + t.dropped == Range(t.enqueued)
    && |t.done| == t.processed
    && t.enqueued <= t.count
    && (t.published ==> t.enqueued == t.count)
    // scores: one per peer, one per processed piece, one per worker in between
    && Sum(t.scores) == |t.scores| + t.processed + scored
    // exactly one worker sees the last piece counted
    && t.completions + pending == One(t.processed == t.count && t.processed > 0)
    && (t.processed > 0 || scored > 0 ==> t.published)
    && (t.state.Completed? ==> t.completions > 0)
    && (t.enqueued > 0 ==> t.scores != [])
  }

  predicate TorrentOk(s: State, tid: nat)
    requires tid in s.torrents
  {
    var t := s.torrents[tid];
    Balanced(t, PiecesOf(s.queue, tid), HeldBy(s.workers, tid), ScoredBy(s.workers, tid), PendingBy(s.workers, tid,
      t.count))
  }

  /** A worker's task belongs to a known torrent, which is published once the worker has passed the lock. */
  predicate WorkerOk(s: State, w: Worker) {
    !w.Idle? ==>
      && w.task.tid in s.torrents
      && (!w.Holding? ==> s.torrents[w.task.tid].published)
      && (w.Finishing? ==> w.peer < |s.torrents[w.task.tid].scores|)
  }

  predicate ClientOk(s: State, c: Client) {
    match c
    case Adding(tid, next) =>
      && tid in s.torrents && s.torrents[tid].enqueued == next && s.torrents[tid].scores != []
      && (s.torrents[tid].published ==> s.torrents[tid].count == 0)
    case Removing(tid) => tid in s.torrents
    case Loaded(tid, _) => tid in s.torrents
    case _ => true
  }

  /** The exclusive lock excludes every other holder. */
  predicate LockOk(s: State) {
    forall c | 0 <= c < |s.clients| && s.clients[c].Adding? ::
      && NoShared(s)
      && (forall d | 0 <= d < |s.clients| && d != c :: !s.clients[d].Adding?)
  }

  /** A torrent that has peers and is not published is being added right now. */
  predicate OwnerOk(s: State, tid: nat)
    requires tid in s.torrents
  {
    !s.torrents[tid].published && s.torrents[tid].scores != [] ==>
      exists c :: 0 <= c < |s.clients| && s.clients[c].Adding? && s.clients[c].tid == tid
  }

  /** Everything but the books. */
  predicate Shape(s: State) {
    && (forall tid :: tid in s.torrents ==> OwnerOk(s, tid))
    && (forall w | 0 <= w < |s.workers| :: WorkerOk(s, s.workers[w]))
    && (forall c | 0 <= c < |s.clients| :: ClientOk(s, s.clients[c]))
    && (forall t :: t in s.queue ==> t.tid in s.torrents)
    && LockOk(s)
  }

  predicate Books(s: State) {
    forall tid :: tid in s.torrents ==> TorrentOk(s, tid)
  }

  predicate Inv(s: State) {
    Shape(s) && Books(s)
  }

  lemma {:induction false} InitInv(workers: nat, clients: nat)
    ensures Inv(Init(workers, clients))
  {
  }

  // ----- Steps of workers -----

  /** The map changed in nothing the shape depends on. */
  predicate SameRoles(s: State, r: State) {
    && r.torrents.Keys == s.torrents.Keys
    && forall tid :: tid in s.torrents ==>
         && r.torrents[tid].published == s.torrents[tid].published
         && r.torrents[tid].enqueued == s.torrents[tid].enqueued
         && r.torrents[tid].count == s.torrents[tid].count
         && |r.torrents[tid].scores| == |s.torrents[tid].scores|
  }

  /** Known torrents stay known, published ones published, and none loses a peer. */
  predicate Grows(s: State, r: State) {
    forall tid :: tid in s.torrents ==>
      && tid in r.torrents
      && (s.torrents[tid].published ==> r.torrents[tid].published)
      && |r.torrents[tid].scores| == |s.torrents[tid].scores|
  }

  lemma {:induction false} WorkersKept(s: State, r: State)
    requires r.workers == s.workers && Grows(s, r)
    requires forall w | 0 <= w < |s.workers| :: WorkerOk(s, s.workers[w])
    ensures forall w | 0 <= w < |r.workers| :: WorkerOk(r, r.workers[w])
  {
  }

  lemma {:induction false} ClientsKept(s: State, r: State)
    requires r.clients == s.clients && Grows(s, r)
    requires forall tid :: tid in s.torrents ==>
      && r.torrents[tid].published == s.torrents[tid].published && r.torrents[tid].enqueued == s.torrents[tid].enqueued
      && r.torrents[tid].count == s.torrents[tid].count
    requires forall c | 0 <= c < |s.clients| :: ClientOk(s, s.clients[c])
    ensures forall c | 0 <= c < |r.clients| :: ClientOk(r, r.clients[c])
  {
  }

  lemma {:induction false} OwnersKept(s: State, r: State)
    requires r.clients == s.clients && SameRoles(s, r)
    requires forall tid :: tid in s.torrents ==> OwnerOk(s, tid)
    ensures forall tid :: tid in r.torrents ==> OwnerOk(r, tid)
  {
    forall tid | tid in r.torrents
      ensures OwnerOk(r, tid)
    {
      assert OwnerOk(s, tid);
    }
  }

  /** A step of one worker keeps the shape if the worker is allowed where it goes. */
  lemma {:induction false} WorkerShape(s: State, r: State, w: nat, to: Worker)
    requires Shape(s) && w < |s.workers| && r.workers == s.workers[w := to]
    requires r.clients == s.clients && r.nextTid == s.nextTid && SameRoles(s, r)
    requires forall t :: t in r.queue ==> t.tid in s.torrents
    requires WorkerOk(s, to) && (WorkerShares(to) ==> NoExclusive(s) || WorkerShares(s.workers[w]))
    ensures Shape(r)
  {
    OwnersKept(s, r);
    ClientsKept(s, r);
    forall v | 0 <= v < |r.workers|
      ensures WorkerOk(r, r.workers[v])
    {
      WorkerInShape(s, v);
    }
  }

  lemma {:induction false} WorkerInShape(s: State, w: nat)
    requires Shape(s) && w < |s.workers|
    ensures WorkerOk(s, s.workers[w])
  {
  }

  lemma {:induction false} BooksAt(s: State, tid: nat)
    requires Books(s) && tid in s.torrents
    ensures TorrentOk(s, tid)
  {
  }

  /** The books of a torrent between whose queue and workers a piece may have moved. */
  lemma {:induction false} BalancedBags(t: Torrent, q: multiset<nat>, h: multiset<nat>, q': multiset<nat>,
                                        h': multiset<nat>, scored: nat, pending: nat)
    requires Balanced(t, q, h, scored, pending) && q' + h' == q + h
    ensures Balanced(t, q', h', scored, pending)
  {
    assert q' + h' + t.done + t.dropped == q + h + t.done + t.dropped;
  }

  lemma {:induction false} BagCancel(a: multiset<nat>, b: multiset<nat>, x: multiset<nat>)
    requires a + x == b + x
    ensures a == b
  {
    assert forall k :: (a + x)[k] == a[k] + x[k];
    assert forall k :: (b + x)[k] == b[k] + x[k];
    assert forall k :: a[k] == b[k];
  }

  lemma {:induction false} TakeBooks(s: State, w: nat, tid: nat)
    requires w < |s.workers| && s.workers[w].Idle? && s.queue != [] && tid in s.torrents && TorrentOk(s, tid)
    ensures TorrentOk(AfterTake(s, w), tid)
  {
    var r, t := AfterTake(s, w), s.torrents[tid];
    var to := Holding(s.queue[0]);
    WorkerMoves(s.workers, w, to, tid, t.count);
    assert Carried(s.workers[w], tid) == multiset{};
    assert HeldBy(r.workers, tid) == HeldBy(s.workers, tid) + Carried(to, tid);
    assert PiecesOf(r.queue, tid) + HeldBy(r.workers, tid) == PiecesOf(s.queue, tid) + HeldBy(s.workers, tid);
    BalancedBags(t, PiecesOf(s.queue, tid), HeldBy(s.workers, tid), PiecesOf(r.queue, tid), HeldBy(r.workers, tid),
                 ScoredBy(s.workers, tid), PendingBy(s.workers, tid, t.count));
  }

  lemma {:induction false} TakeShape(s: State, w: nat)
    requires Shape(s) && w < |s.workers| && s.workers[w].Idle? && s.queue != []
    ensures Shape(AfterTake(s, w))
  {
    WorkerInShape(s, w);
    assert forall t :: t in AfterTake(s, w).queue ==> t in s.queue;
    assert s.queue[0] in s.queue;
    WorkerShape(s, AfterTake(s, w), w, Holding(s.queue[0]));
  }

  lemma {:induction false} TakeInv(s: State, w: nat)
    requires Inv(s) && w < |s.workers| && s.workers[w].Idle? && s.queue != []
    ensures Inv(AfterTake(s, w))
  {
    TakeShape(s, w);
    WorkerInShape(s, w);
    forall tid | tid in s.torrents
      ensures TorrentOk(AfterTake(s, w), tid)
    {
      BooksAt(s, tid);
      TakeBooks(s, w, tid);
    }
  }

  /** A worker that changes where it stands, not what it carries. */
  lemma {:induction false} StandsBooks(s: State, w: nat, to: Worker, tid: nat)
    requires w < |s.workers| && tid in s.torrents && TorrentOk(s, tid)
    requires Carries(s.workers[w]) && Carries(to) && to.task == s.workers[w].task
    requires !s.workers[w].Scored? && !to.Scored?
    ensures TorrentOk(SetWorker(s, w, to), tid)
  {
    WorkerMoves(s.workers, w, to, tid, s.torrents[tid].count);
    BagCancel(HeldBy(s.workers[w := to], tid), HeldBy(s.workers, tid), Carried(to, tid));
  }

  lemma {:induction false} StandsInv(s: State, w: nat, to: Worker)
    requires Inv(s) && w < |s.workers| && WorkerOk(s, to)
    requires Carries(s.workers[w]) && Carries(to) && to.task == s.workers[w].task
    requires !s.workers[w].Scored? && !to.Scored?
    requires WorkerShares(to) ==> NoExclusive(s) || WorkerShares(s.workers[w])
    ensures Inv(SetWorker(s, w, to))
  {
    WorkerShape(s, SetWorker(s, w, to), w, to);
    forall tid | tid in s.torrents
      ensures TorrentOk(SetWorker(s, w, to), tid)
    {
      BooksAt(s, tid);
      StandsBooks(s, w, to, tid);
    }
  }

  lemma {:induction false} HeldPiece(workers: seq<Worker>, w: nat)
    requires w < |workers| && Carries(workers[w])
    ensures HeldBy(workers, workers[w].task.tid)[workers[w].task.piece] > 0
  {
    if w > 0 {
      HeldPiece(workers[1..], w - 1);
    }
  }

  lemma {:induction false} BagNonempty(b: multiset<nat>, k: nat)
    requires b[k] > 0
    ensures |b| > 0
  {
    assert k in b;
  }

  /** A piece that a worker carries has been enqueued and not yet been counted. */
  lemma {:induction false} CarriedIsOpen(s: State, w: nat, tid: nat)
    requires w < |s.workers| && Carries(s.workers[w]) && s.workers[w].task.tid == tid
    requires tid in s.torrents && TorrentOk(s, tid)
    ensures s.workers[w].task.piece < s.torrents[tid].enqueued && s.torrents[tid].processed < s.torrents[tid].enqueued
  {
    var k, t := s.workers[w].task.piece, s.torrents[tid];
    HeldPiece(s.workers, w);
    var q, h := PiecesOf(s.queue, tid), HeldBy(s.workers, tid);
    assert Range(t.enqueued)[k] == (q + h + t.done + t.dropped)[k] > 0;
    BagNonempty(h, k);
    assert |q + h + t.done + t.dropped| == |q| + |h| + |t.done| + |t.dropped|;
  }

  /** Past the lock, a task's torrent is published: whoever was adding it has left. */
  lemma {:induction false} LockCheckInv(s: State, w: nat)
    requires Inv(s) && w < |s.workers| && s.workers[w].Holding? && NoExclusive(s)
    ensures Inv(SetWorker(s, w, Checking(s.workers[w].task)))
  {
    var tid := s.workers[w].task.tid;
    WorkerInShape(s, w);
    BooksAt(s, tid);
    CarriedIsOpen(s, w, tid);
    assert OwnerOk(s, tid);
    StandsInv(s, w, Checking(s.workers[w].task));
  }

  lemma {:induction false} LoadStateInv(s: State, w: nat)
    requires Inv(s) && w < |s.workers| && s.workers[w].Checking? && Known(s, s.workers[w].task.tid)
    ensures Inv(AfterLoad(s, w))
  {
    WorkerInShape(s, w);
    StandsInv(s, w, AfterLoad(s, w).workers[w]);
  }

  lemma {:induction false} SaveStands(s: State, w: nat)
    requires Inv(s) && w < |s.workers| && s.workers[w].Processing?
    ensures Inv(SetWorker(s, w, Saved(s.workers[w].task)))
  {
    WorkerInShape(s, w);
    StandsInv(s, w, Saved(s.workers[w].task));
  }

  lemma {:induction false} SaveInv(s: State, w: nat)
    requires Inv(s) && Enabled(s, Save(w))
    ensures Inv(AfterSave(s, w))
  {
    var task := s.workers[w].task;
    var t := s.torrents[task.tid];
    SaveStands(s, w);
    NoteWrite(SetWorker(s, w, Saved(task)), task.tid, t.(saved := t.saved + [task.piece]));
  }

  lemma {:induction false} LockFinishInv(s: State, w: nat, peer: nat)
    requires Inv(s) && Enabled(s, LockFinish(w, peer))
    ensures Inv(SetWorker(s, w, Finishing(s.workers[w].task, peer)))
  {
    WorkerInShape(s, w);
    StandsInv(s, w, Finishing(s.workers[w].task, peer));
  }

  lemma {:induction false} RequeueBooks(s: State, w: nat, tid: nat)
    requires w < |s.workers| && s.workers[w].Requeueing? && tid in s.torrents && TorrentOk(s, tid)
    ensures TorrentOk(AfterRequeue(s, w), tid)
  {
    var r, t := AfterRequeue(s, w), s.torrents[tid];
    WorkerMoves(s.workers, w, Idle, tid, t.count);
    PiecesOfAppend(s.queue, s.workers[w].task, tid);
    assert Carried(Idle, tid) == multiset{};
    assert HeldBy(r.workers, tid) + Carried(s.workers[w], tid) == HeldBy(s.workers, tid);
    assert PiecesOf(r.queue, tid) + HeldBy(r.workers, tid) == PiecesOf(s.queue, tid) + HeldBy(s.workers, tid);
    BalancedBags(t, PiecesOf(s.queue, tid), HeldBy(s.workers, tid), PiecesOf(r.queue, tid), HeldBy(r.workers, tid),
                 ScoredBy(s.workers, tid), PendingBy(s.workers, tid, t.count));
  }

  lemma {:induction false} RequeueShape(s: State, w: nat)
    requires Shape(s) && w < |s.workers| && s.workers[w].Requeueing?
    ensures Shape(AfterRequeue(s, w))
  {
    WorkerInShape(s, w);
    WorkerShape(s, AfterRequeue(s, w), w, Idle);
  }

  lemma {:induction false} RequeueInv(s: State, w: nat)
    requires Inv(s) && w < |s.workers| && s.workers[w].Requeueing?
    ensures Inv(AfterRequeue(s, w))
  {
    RequeueShape(s, w);
    WorkerInShape(s, w);
    forall tid | tid in s.torrents
      ensures TorrentOk(AfterRequeue(s, w), tid)
    {
      BooksAt(s, tid);
      RequeueBooks(s, w, tid);
    }
  }

  lemma {:induction false} ScoreBalanced(t: Torrent, q: multiset<nat>, h: multiset<nat>, scored: nat, pending: nat,
                                         peer: nat)
    requires Balanced(t, q, h, scored, pending) && peer < |t.scores| && t.published
    ensures Balanced(Rewarded(t, peer), q, h, scored + 1, pending)
  {
    SumUpdate(t.scores, peer, t.scores[peer] + 1);
  }

  /** A worker that works for another torrent does not touch this one's figures. */
  lemma {:induction false} Elsewhere(workers: seq<Worker>, w: nat, to: Worker, tid: nat, count: nat)
    requires w < |workers| && (workers[w].Idle? || workers[w].task.tid != tid) && (to.Idle? || to.task.tid != tid)
    ensures HeldBy(workers[w := to], tid) == HeldBy(workers, tid)
    ensures ScoredBy(workers[w := to], tid) == ScoredBy(workers, tid)
    ensures PendingBy(workers[w := to], tid, count) == PendingBy(workers, tid, count)
  {
    WorkerMoves(workers, w, to, tid, count);
    BagCancel(HeldBy(workers[w := to], tid), HeldBy(workers, tid), multiset{});
  }

  lemma {:induction false} ScoreOwnBooks(s: State, w: nat)
    requires w < |s.workers| && s.workers[w].Finishing? && WorkerOk(s, s.workers[w])
    requires TorrentOk(s, s.workers[w].task.tid)
    ensures TorrentOk(AfterScore(s, w), s.workers[w].task.tid)
  {
    var task := s.workers[w].task;
    var tid, t := task.tid, s.torrents[task.tid];
    WorkerMoves(s.workers, w, Scored(task), tid, t.count);
    BagCancel(HeldBy(s.workers[w := Scored(task)], tid), HeldBy(s.workers, tid), multiset{task.piece});
    ScoreBalanced(t, PiecesOf(s.queue, tid), HeldBy(s.workers, tid), ScoredBy(s.workers, tid),
                  PendingBy(s.workers, tid, t.count), s.workers[w].peer);
  }

  lemma {:induction false} ScoreOtherBooks(s: State, w: nat, tid: nat)
    requires w < |s.workers| && s.workers[w].Finishing? && Known(s, s.workers[w].task.tid)
    requires tid in s.torrents && tid != s.workers[w].task.tid && TorrentOk(s, tid)
    ensures TorrentOk(AfterScore(s, w), tid)
  {
    var r := AfterScore(s, w);
    assert r.torrents[tid] == s.torrents[tid] && r.queue == s.queue;
    assert r.workers == s.workers[w := r.workers[w]];
    Elsewhere(s.workers, w, r.workers[w], tid, s.torrents[tid].count);
  }

  lemma {:induction false} ScoreBooks(s: State, w: nat, tid: nat)
    requires w < |s.workers| && s.workers[w].Finishing? && WorkerOk(s, s.workers[w])
    requires tid in s.torrents && TorrentOk(s, tid)
    ensures TorrentOk(AfterScore(s, w), tid)
  {
    if tid == s.workers[w].task.tid {
      ScoreOwnBooks(s, w);
    } else {
      ScoreOtherBooks(s, w, tid);
    }
  }

  lemma {:induction false} ScoreShape(s: State, w: nat)
    requires Shape(s) && w < |s.workers| && s.workers[w].Finishing? && Known(s, s.workers[w].task.tid)
    ensures Shape(AfterScore(s, w))
  {
    WorkerInShape(s, w);
    WorkerShape(s, AfterScore(s, w), w, Scored(s.workers[w].task));
  }

  lemma {:induction false} ScoreInv(s: State, w: nat)
    requires Inv(s) && w < |s.workers| && s.workers[w].Finishing? && Known(s, s.workers[w].task.tid)
    ensures Inv(AfterScore(s, w))
  {
    ScoreShape(s, w);
    WorkerInShape(s, w);
    forall tid | tid in s.torrents
      ensures TorrentOk(AfterScore(s, w), tid)
    {
      BooksAt(s, tid);
      ScoreBooks(s, w, tid);
    }
  }

  /** Counting moves the piece from held to done and gives the worker the new total. */
  lemma {:induction false} CountBalanced(t: Torrent, q: multiset<nat>, h: multiset<nat>, h': multiset<nat>, k: nat,
                                         scored: nat, pending: nat)
    requires Balanced(t, q, h, scored, pending) && h' + multiset{k} == h && scored > 0 && t.processed < t.count
    ensures Balanced(Advanced(t, k), q, h', scored - 1, pending + One(t.processed + 1 == t.count))
  {
    assert q + h' + (t.done + multiset{k}) + t.dropped == q + (h' + multiset{k}) + t.done + t.dropped;
  }

  lemma {:induction false} CountOwnBooks(s: State, w: nat)
    requires w < |s.workers| && s.workers[w].Scored? && WorkerOk(s, s.workers[w])
    requires TorrentOk(s, s.workers[w].task.tid)
    ensures TorrentOk(AfterCount(s, w), s.workers[w].task.tid)
  {
    var task := s.workers[w].task;
    var tid, t := task.tid, s.torrents[task.tid];
    var to := Counted(task, t.processed + 1);
    CarriedIsOpen(s, w, tid);
    WorkerMoves(s.workers, w, to, tid, t.count);
    assert HeldBy(s.workers[w := to], tid) + multiset{task.piece} == HeldBy(s.workers, tid) + multiset{} ==
           HeldBy(s.workers, tid);
    CountBalanced(t, PiecesOf(s.queue, tid), HeldBy(s.workers, tid), HeldBy(s.workers[w := to], tid), task.piece,
                  ScoredBy(s.workers, tid), PendingBy(s.workers, tid, t.count));
  }

  lemma {:induction false} CountOtherBooks(s: State, w: nat, tid: nat)
    requires w < |s.workers| && s.workers[w].Scored? && Known(s, s.workers[w].task.tid)
    requires tid in s.torrents && tid != s.workers[w].task.tid && TorrentOk(s, tid)
    ensures TorrentOk(AfterCount(s, w), tid)
  {
    var r := AfterCount(s, w);
    assert r.torrents[tid] == s.torrents[tid] && r.queue == s.queue;
    assert r.workers == s.workers[w := r.workers[w]];
    Elsewhere(s.workers, w, r.workers[w], tid, s.torrents[tid].count);
  }

  lemma {:induction false} CountBooks(s: State, w: nat, tid: nat)
    requires w < |s.workers| && s.workers[w].Scored? && WorkerOk(s, s.workers[w])
    requires tid in s.torrents && TorrentOk(s, tid)
    ensures TorrentOk(AfterCount(s, w), tid)
  {
    if tid == s.workers[w].task.tid {
      CountOwnBooks(s, w);
    } else {
      CountOtherBooks(s, w, tid);
    }
  }

  lemma {:induction false} CountShape(s: State, w: nat)
    requires Shape(s) && w < |s.workers| && s.workers[w].Scored? && Known(s, s.workers[w].task.tid)
    ensures Shape(AfterCount(s, w))
  {
    WorkerInShape(s, w);
    WorkerShape(s, AfterCount(s, w), w, AfterCount(s, w).workers[w]);
  }

  lemma {:induction false} CountInv(s: State, w: nat)
    requires Inv(s) && w < |s.workers| && s.workers[w].Scored? && Known(s, s.workers[w].task.tid)
    ensures Inv(AfterCount(s, w))
  {
    CountShape(s, w);
    WorkerInShape(s, w);
    forall tid | tid in s.torrents
      ensures TorrentOk(AfterCount(s, w), tid)
    {
      BooksAt(s, tid);
      CountBooks(s, w, tid);
    }
  }

  lemma {:induction false} CompareBooks(s: State, w: nat, tid: nat)
    requires w < |s.workers| && s.workers[w].Counted? && WorkerOk(s, s.workers[w])
    requires tid in s.torrents && TorrentOk(s, tid)
    ensures TorrentOk(AfterCompare(s, w), tid)
  {
    var r, t := AfterCompare(s, w), s.torrents[tid];
    WorkerMoves(s.workers, w, Idle, tid, t.count);
    assert Carried(s.workers[w], tid) == Carried(Idle, tid) == multiset{};
    BagCancel(HeldBy(r.workers, tid), HeldBy(s.workers, tid), multiset{});
  }

  lemma {:induction false} CompareShape(s: State, w: nat)
    requires Shape(s) && w < |s.workers| && s.workers[w].Counted? && Known(s, s.workers[w].task.tid)
    ensures Shape(AfterCompare(s, w))
  {
    WorkerInShape(s, w);
    WorkerShape(s, AfterCompare(s, w), w, Idle);
  }

  lemma {:induction false} CompareInv(s: State, w: nat)
    requires Inv(s) && w < |s.workers| && s.workers[w].Counted? && Known(s, s.workers[w].task.tid)
    ensures Inv(AfterCompare(s, w))
  {
    CompareShape(s, w);
    WorkerInShape(s, w);
    forall tid | tid in s.torrents
      ensures TorrentOk(AfterCompare(s, w), tid)
    {
      BooksAt(s, tid);
      CompareBooks(s, w, tid);
    }
  }

  // ----- Steps of clients -----

  lemma {:induction false} ClientMovesShape(s: State, c: nat, to: Client)
    requires Shape(s) && c < |s.clients| && ClientOk(s, to)
    requires !s.clients[c].Adding? && !to.Adding?
    requires ClientShares(to) ==> NoExclusive(s) || ClientShares(s.clients[c])
    ensures Shape(SetClient(s, c, to))
  {
    var r := SetClient(s, c, to);
    forall tid | tid in r.torrents
      ensures OwnerOk(r, tid)
    {
      assert OwnerOk(s, tid);
      if !s.torrents[tid].published && s.torrents[tid].scores != [] {
        var d :| 0 <= d < |s.clients| && s.clients[d].Adding? && s.clients[d].tid == tid;
        assert r.clients[d] == s.clients[d];
      }
    }
    WorkersKept(s, r);
    forall d | 0 <= d < |r.clients|
      ensures ClientOk(r, r.clients[d])
    {
      assert ClientOk(s, s.clients[d]);
    }
    assert LockOk(r) by {
      forall d | 0 <= d < |r.clients| && r.clients[d].Adding?
        ensures NoShared(r) && forall e | 0 <= e < |r.clients| && e != d :: !r.clients[e].Adding?
      {
        assert s.clients[d].Adding? && NoShared(s);
      }
    }
  }

  /** A client that moves while the torrents, the queue and the workers stay. */
  lemma {:induction false} ClientMoves(s: State, c: nat, to: Client)
    requires Inv(s) && c < |s.clients| && ClientOk(s, to)
    requires !s.clients[c].Adding? && !to.Adding?
    requires ClientShares(to) ==> NoExclusive(s) || ClientShares(s.clients[c])
    ensures Inv(SetClient(s, c, to))
  {
    ClientMovesShape(s, c, to);
    forall tid | tid in s.torrents
      ensures TorrentOk(SetClient(s, c, to), tid)
    {
      BooksAt(s, tid);
    }
  }

  /** Only the state, other than to Completed, or the record of saved pieces is written. */
  predicate Notes(t: Torrent, to: Torrent) {
    to == t.(state := to.state, saved := to.saved) && (to.state.Completed? ==> t.state.Completed?)
  }

  lemma {:induction false} NoteWriteBalanced(t: Torrent, to: Torrent, q: multiset<nat>, h: multiset<nat>, scored: nat,
                                             pending: nat)
    requires Notes(t, to) && Balanced(t, q, h, scored, pending)
    ensures Balanced(to, q, h, scored, pending)
  {
  }

  lemma {:induction false} NoteWriteBooks(s: State, tid: nat, to: Torrent)
    requires Books(s) && tid in s.torrents && Notes(s.torrents[tid], to)
    ensures Books(SetTorrent(s, tid, to))
  {
    var r := SetTorrent(s, tid, to);
    forall other | other in r.torrents
      ensures TorrentOk(r, other)
    {
      BooksAt(s, other);
      if other == tid {
        NoteWriteBalanced(s.torrents[tid], to, PiecesOf(s.queue, tid), HeldBy(s.workers, tid), ScoredBy(s.workers, tid),
                          PendingBy(s.workers, tid, to.count));
      }
    }
  }

  lemma {:induction false} NoteWriteShape(s: State, tid: nat, to: Torrent)
    requires Shape(s) && tid in s.torrents && Notes(s.torrents[tid], to)
    ensures Shape(SetTorrent(s, tid, to))
  {
    var r := SetTorrent(s, tid, to);
    forall other | other in r.torrents
      ensures OwnerOk(r, other)
    {
      assert OwnerOk(s, other);
    }
    WorkersKept(s, r);
    ClientsKept(s, r);
  }

  /** Such a write disturbs nothing. */
  lemma {:induction false} NoteWrite(s: State, tid: nat, to: Torrent)
    requires Inv(s) && tid in s.torrents && Notes(s.torrents[tid], to)
    ensures Inv(SetTorrent(s, tid, to))
  {
    NoteWriteShape(s, tid, to);
    NoteWriteBooks(s, tid, to);
  }

  // An unknown torrent has no tasks anywhere.

  lemma {:induction false} NotQueued(queue: seq<Task>, tid: nat)
    requires forall t :: t in queue ==> t.tid != tid
    ensures PiecesOf(queue, tid) == multiset{}
  {
    if queue != [] {
      assert queue[0] in queue;
      NotQueued(queue[1..], tid);
    }
  }

  lemma {:induction false} NotHeld(workers: seq<Worker>, tid: nat, count: nat)
    requires forall w | 0 <= w < |workers| :: workers[w].Idle? || workers[w].task.tid != tid
    ensures HeldBy(workers, tid) == multiset{} && ScoredBy(workers, tid) == 0 && PendingBy(workers, tid, count) == 0
  {
    if workers != [] {
      NotHeld(workers[1..], tid, count);
    }
  }

  /** A torrent with nothing enqueued, processed or scored yet. */
  predicate Blank(t: Torrent) {
    && t.processed == 0 && t.enqueued == 0 && t.completions == 0 && !t.published && !t.state.Completed?
    && t.done == multiset{} && t.dropped == multiset{} && Sum(t.scores) == |t.scores|
  }

  lemma {:induction false} BlankBooks(s: State, tid: nat, t: Torrent)
    requires Inv(s) && tid !in s.torrents && Blank(t)
    ensures Books(SetTorrent(s, tid, t))
  {
    var r := SetTorrent(s, tid, t);
    UnknownIdle(s, tid, t.count);
    forall other | other in r.torrents
      ensures TorrentOk(r, other)
    {
      if other != tid {
        BooksAt(s, other);
      } else {
        BlankBalanced(t);
      }
    }
  }

  lemma {:induction false} BlankBalanced(t: Torrent)
    requires Blank(t)
    ensures Balanced(t, multiset{}, multiset{}, 0, 0)
  {
  }

  lemma {:induction false} UnknownIdle(s: State, tid: nat, count: nat)
    requires Shape(s) && tid !in s.torrents
    ensures PiecesOf(s.queue, tid) == multiset{} && HeldBy(s.workers, tid) == multiset{}
    ensures ScoredBy(s.workers, tid) == 0 && PendingBy(s.workers, tid, count) == 0
  {
    NotQueued(s.queue, tid);
    forall w | 0 <= w < |s.workers|
      ensures s.workers[w].Idle? || s.workers[w].task.tid != tid
    {
      WorkerInShape(s, w);
    }
    NotHeld(s.workers, tid, count);
  }

  /** A blank torrent may enter the map: without peers at any time, with peers under an identifier given out. */
  lemma {:induction false} BlankShape(s: State, tid: nat, t: Torrent)
    requires Shape(s) && tid !in s.torrents && Blank(t) && t.scores == []
    ensures Shape(SetTorrent(s, tid, t))
  {
    var r := SetTorrent(s, tid, t);
    forall other | other in r.torrents
      ensures OwnerOk(r, other)
    {
      if other != tid {
        assert OwnerOk(s, other);
      }
    }
    WorkersKept(s, r);
    ClientsKept(s, r);
  }

  lemma {:induction false} FreshBlank(count: nat, peers: nat)
    ensures Blank(Fresh(count, peers)) && Blank(Fresh(count, peers).(state := Errored)) && Blank(Default())
  {
    SumOnes(peers);
  }

  /** The shape does not depend on the next identifier. */
  lemma {:induction false} CounterShape(s: State, n: nat)
    requires Shape(s)
    ensures Shape(s.(nextTid := n))
  {
    var r := s.(nextTid := n);
    forall tid | tid in r.torrents
      ensures OwnerOk(r, tid)
    {
      OwnerInShape(s, tid);
    }
    WorkersKept(s, r);
    ClientsKept(s, r);
  }

  /** The books do not depend on the clients or the next identifier. */
  lemma {:induction false} SameBooks(s: State, r: State)
    requires Books(s) && r.queue == s.queue && r.torrents == s.torrents && r.workers == s.workers
    ensures Books(r)
  {
    forall tid | tid in r.torrents
      ensures TorrentOk(r, tid)
    {
      BooksAt(s, tid);
    }
  }

  lemma {:induction false} OwnerInShape(s: State, tid: nat)
    requires Shape(s) && tid in s.torrents
    ensures OwnerOk(s, tid)
  {
  }

  /** The torrent a client may start to fill: a new one with peers, or one that is published and has no pieces. */
  predicate Fillable(s: State, tid: nat, t: Torrent) {
    && t.scores != [] && t.enqueued == 0
    && if tid in s.torrents then t == s.torrents[tid] && t.published && t.count == 0 else Blank(t)
  }

  lemma {:induction false} AdmitOwners(s: State, c: nat, tid: nat, t: Torrent, other: nat)
    requires Shape(s) && c < |s.clients| && s.clients[c].Drawn? && Fillable(s, tid, t)
    requires other in s.torrents || other == tid
    ensures OwnerOk(SetTorrent(SetClient(s, c, Adding(tid, 0)), tid, t), other)
  {
    var r := SetTorrent(SetClient(s, c, Adding(tid, 0)), tid, t);
    if other == tid {
      assert r.clients[c].Adding? && r.clients[c].tid == tid;
    } else {
      OwnerInShape(s, other);
      if !s.torrents[other].published && s.torrents[other].scores != [] {
        var d :| 0 <= d < |s.clients| && s.clients[d].Adding? && s.clients[d].tid == other;
        assert r.clients[d] == s.clients[d];
      }
    }
  }

  /** The adding client holds the lock alone, so the torrent it fills is nobody else's. */
  lemma {:induction false} AdmitShape(s: State, c: nat, tid: nat, t: Torrent)
    requires Shape(s) && c < |s.clients| && s.clients[c].Drawn? && NoExclusive(s) && NoShared(s) && Fillable(s, tid, t)
    ensures Shape(SetTorrent(SetClient(s, c, Adding(tid, 0)), tid, t))
  {
    var r := SetTorrent(SetClient(s, c, Adding(tid, 0)), tid, t);
    forall other | other in r.torrents
      ensures OwnerOk(r, other)
    {
      AdmitOwners(s, c, tid, t, other);
    }
    WorkersKept(s, r);
    forall d | 0 <= d < |r.clients|
      ensures ClientOk(r, r.clients[d])
    {
      if d != c {
        ClientInShape(s, d);
      }
    }
    assert NoShared(r) by {
      assert forall d | 0 <= d < |r.clients| && d != c :: r.clients[d] == s.clients[d];
    }
  }

  lemma {:induction false} AdmitKnownBooks(s: State, c: nat, tid: nat, t: Torrent)
    requires Books(s) && c < |s.clients| && tid in s.torrents && s.torrents[tid] == t
    ensures Books(SetTorrent(SetClient(s, c, Adding(tid, 0)), tid, t))
  {
    assert s.torrents[tid := t] == s.torrents;
    SameBooks(s, SetTorrent(SetClient(s, c, Adding(tid, 0)), tid, t));
  }

  lemma {:induction false} AdmitNewBooks(s: State, c: nat, tid: nat, t: Torrent)
    requires Inv(s) && c < |s.clients| && tid !in s.torrents && Blank(t)
    ensures Books(SetTorrent(SetClient(s, c, Adding(tid, 0)), tid, t))
  {
    BlankBooks(s, tid, t);
    SameBooks(SetTorrent(s, tid, t), SetTorrent(SetClient(s, c, Adding(tid, 0)), tid, t));
  }

  lemma {:induction false} AdmitInv(s: State, c: nat, tid: nat, t: Torrent)
    requires Inv(s) && c < |s.clients| && s.clients[c].Drawn? && NoExclusive(s) && NoShared(s) && Fillable(s, tid, t)
    ensures Inv(SetTorrent(SetClient(s, c, Adding(tid, 0)), tid, t))
  {
    AdmitShape(s, c, tid, t);
    if tid in s.torrents {
      AdmitKnownBooks(s, c, tid, t);
    } else {
      AdmitNewBooks(s, c, tid, t);
    }
  }

  lemma {:induction false} RefuseInv(s: State, c: nat, tid: nat, t: Torrent)
    requires Inv(s) && c < |s.clients| && s.clients[c].Drawn? && t.scores == [] && t.state.Errored?
    requires if tid in s.torrents then Notes(s.torrents[tid], t) else Blank(t)
    ensures Inv(SetTorrent(SetClient(s, c, Resting), tid, t))
  {
    var rested := SetClient(s, c, Resting);
    ClientMoves(s, c, Resting);
    if tid in s.torrents {
      NoteWrite(rested, tid, t);
    } else {
      BlankBooks(rested, tid, t);
      BlankShape(rested, tid, t);
    }
  }

  /** Under the exclusive lock a torrent with peers is published: nobody else is adding it. */
  lemma {:induction false} PeersMeanPublished(s: State, tid: nat)
    requires Shape(s) && NoExclusive(s) && tid in s.torrents && s.torrents[tid].scores != []
    ensures s.torrents[tid].published
  {
    OwnerInShape(s, tid);
  }

  lemma {:induction false} AcceptInv(s: State, c: nat, count: nat, peers: nat)
    requires Inv(s) && Enabled(s, LockAdd(c, count, peers)) && !Readmits(s, LockAdd(c, count, peers))
    requires Admitted(s, s.clients[c].tid, count, peers).scores != []
    ensures Inv(AfterLockAdd(s, c, count, peers))
  {
    var tid := s.clients[c].tid;
    var t := Admitted(s, tid, count, peers);
    if tid in s.torrents {
      PeersMeanPublished(s, tid);
      BooksAt(s, tid);
    } else {
      FreshBlank(count, peers);
    }
    AdmitInv(s, c, tid, t);
  }

  /** Without peers the torrent is marked and the client leaves; with peers the client starts to enqueue. */
  lemma {:induction false} LockAddInv(s: State, c: nat, count: nat, peers: nat)
    requires Inv(s) && Enabled(s, LockAdd(c, count, peers)) && !Readmits(s, LockAdd(c, count, peers))
    ensures Inv(AfterLockAdd(s, c, count, peers))
  {
    var tid := s.clients[c].tid;
    var t := Admitted(s, tid, count, peers);
    if t.scores == [] {
      FreshBlank(count, peers);
      RefuseInv(s, c, tid, t.(state := Errored));
    } else {
      AcceptInv(s, c, count, peers);
    }
  }

  // The adding client.

  lemma {:induction false} EmplaceBalanced(t: Torrent, q: multiset<nat>, h: multiset<nat>, scored: nat, pending: nat)
    requires Balanced(t, q, h, scored, pending) && t.enqueued < t.count && t.scores != []
    ensures Balanced(t.(enqueued := t.enqueued + 1), q + multiset{t.enqueued}, h, scored, pending)
  {
    assert q + multiset{t.enqueued} + h + t.done + t.dropped == q + h + t.done + t.dropped + multiset{t.enqueued};
  }

  lemma {:induction false} EmplaceOwnBooks(s: State, c: nat)
    requires c < |s.clients| && s.clients[c].Adding? && ClientOk(s, s.clients[c])
    requires s.clients[c].next < s.torrents[s.clients[c].tid].count && TorrentOk(s, s.clients[c].tid)
    ensures TorrentOk(AfterEmplace(s, c), s.clients[c].tid)
  {
    var tid, k := s.clients[c].tid, s.clients[c].next;
    var t := s.torrents[tid];
    PiecesOfAppend(s.queue, Task(tid, k), tid);
    EmplaceBalanced(t, PiecesOf(s.queue, tid), HeldBy(s.workers, tid), ScoredBy(s.workers, tid),
                    PendingBy(s.workers, tid, t.count));
  }

  lemma {:induction false} EmplaceOtherBooks(s: State, c: nat, tid: nat)
    requires c < |s.clients| && s.clients[c].Adding? && Known(s, s.clients[c].tid)
    requires tid in s.torrents && tid != s.clients[c].tid && TorrentOk(s, tid)
    ensures TorrentOk(AfterEmplace(s, c), tid)
  {
    var r := AfterEmplace(s, c);
    PiecesOfAppend(s.queue, Task(s.clients[c].tid, s.clients[c].next), tid);
    assert PiecesOf(s.queue, tid) + multiset{} == PiecesOf(s.queue, tid);
    assert r.torrents[tid] == s.torrents[tid] && PiecesOf(r.queue, tid) == PiecesOf(s.queue, tid) &&
           r.workers == s.workers;
  }

  lemma {:induction false} EmplaceOwners(s: State, c: nat, tid: nat)
    requires c < |s.clients| && s.clients[c].Adding? && Known(s, s.clients[c].tid) && tid in s.torrents &&
             OwnerOk(s, tid)
    ensures OwnerOk(AfterEmplace(s, c), tid)
  {
    var r := AfterEmplace(s, c);
    if !s.torrents[tid].published && s.torrents[tid].scores != [] {
      var d :| 0 <= d < |s.clients| && s.clients[d].Adding? && s.clients[d].tid == tid;
      assert r.clients[d].Adding? && r.clients[d].tid == tid;
    }
  }

  lemma {:induction false} EmplaceClients(s: State, c: nat, d: nat)
    requires Shape(s) && c < |s.clients| && s.clients[c].Adding? && Known(s, s.clients[c].tid) && d < |s.clients|
    ensures ClientOk(AfterEmplace(s, c), AfterEmplace(s, c).clients[d])
  {
    ClientInShape(s, c);
    ClientInShape(s, d);
  }

  lemma {:induction false} EmplaceShape(s: State, c: nat)
    requires Shape(s) && c < |s.clients| && s.clients[c].Adding? && Known(s, s.clients[c].tid)
    ensures Shape(AfterEmplace(s, c))
  {
    var r := AfterEmplace(s, c);
    forall tid | tid in r.torrents
      ensures OwnerOk(r, tid)
    {
      OwnerInShape(s, tid);
      EmplaceOwners(s, c, tid);
    }
    WorkersKept(s, r);
    forall d | 0 <= d < |r.clients|
      ensures ClientOk(r, r.clients[d])
    {
      EmplaceClients(s, c, d);
    }
  }

  lemma {:induction false} EmplaceInv(s: State, c: nat)
    requires Inv(s) && Enabled(s, Emplace(c))
    ensures Inv(AfterEmplace(s, c))
  {
    EmplaceShape(s, c);
    ClientInShape(s, c);
    forall tid | tid in s.torrents
      ensures TorrentOk(AfterEmplace(s, c), tid)
    {
      BooksAt(s, tid);
      if tid == s.clients[c].tid {
        EmplaceOwnBooks(s, c);
      } else {
        EmplaceOtherBooks(s, c, tid);
      }
    }
  }

  lemma {:induction false} ClientInShape(s: State, c: nat)
    requires Shape(s) && c < |s.clients|
    ensures ClientOk(s, s.clients[c])
  {
  }

  lemma {:induction false} PublishBooks(s: State, c: nat, tid: nat)
    requires c < |s.clients| && s.clients[c].Adding? && ClientOk(s, s.clients[c])
    requires s.clients[c].next == s.torrents[s.clients[c].tid].count && tid in s.torrents && TorrentOk(s, tid)
    ensures TorrentOk(AfterPublish(s, c), tid)
  {
  }

  lemma {:induction false} PublishShape(s: State, c: nat)
    requires Shape(s) && c < |s.clients| && s.clients[c].Adding? && Known(s, s.clients[c].tid)
    ensures Shape(AfterPublish(s, c))
  {
    var r, own := AfterPublish(s, c), s.clients[c].tid;
    ClientInShape(s, c);
    forall tid | tid in r.torrents
      ensures OwnerOk(r, tid)
    {
      OwnerInShape(s, tid);
    }
    WorkersKept(s, r);
    forall d | 0 <= d < |r.clients|
      ensures ClientOk(r, r.clients[d])
    {
      assert ClientOk(s, s.clients[d]);
    }
  }

  lemma {:induction false} PublishInv(s: State, c: nat)
    requires Inv(s) && Enabled(s, Publish(c))
    ensures Inv(AfterPublish(s, c))
  {
    PublishShape(s, c);
    ClientInShape(s, c);
    forall tid | tid in s.torrents
      ensures TorrentOk(AfterPublish(s, c), tid)
    {
      BooksAt(s, tid);
      PublishBooks(s, c, tid);
    }
  }

  // The removing client.

  lemma {:induction false} SweepBalanced(t: Torrent, q: multiset<nat>, h: multiset<nat>, scored: nat, pending: nat)
    requires Balanced(t, q, h, scored, pending)
    ensures Balanced(t.(dropped := t.dropped + q), multiset{}, h, scored, pending)
  {
    assert multiset{} + h + t.done + (t.dropped + q) == q + h + t.done + t.dropped;
  }

  lemma {:induction false} SweepBooks(s: State, c: nat, tid: nat, other: nat)
    requires c < |s.clients| && other in s.torrents && TorrentOk(s, other)
    ensures TorrentOk(AfterSweep(s, c, tid), other)
  {
    var t := s.torrents[other];
    SweepKeepsOthers(s.queue, tid, other);
    if other == tid {
      SweepBalanced(t, PiecesOf(s.queue, tid), HeldBy(s.workers, tid), ScoredBy(s.workers, tid),
                    PendingBy(s.workers, tid, t.count));
    }
  }

  lemma {:induction false} SweepOwners(s: State, c: nat, tid: nat, other: nat)
    requires c < |s.clients| && s.clients[c].Resting? && other in s.torrents && OwnerOk(s, other)
    ensures OwnerOk(AfterSweep(s, c, tid), other)
  {
    var r := AfterSweep(s, c, tid);
    if !s.torrents[other].published && s.torrents[other].scores != [] {
      var d :| 0 <= d < |s.clients| && s.clients[d].Adding? && s.clients[d].tid == other;
      assert r.clients[d] == s.clients[d];
    }
  }

  lemma {:induction false} SweepRoles(s: State, c: nat, tid: nat)
    requires c < |s.clients|
    ensures SameRoles(s, AfterSweep(s, c, tid)) && AfterSweep(s, c, tid).workers == s.workers
  {
  }

  lemma {:induction false} SweepLock(s: State, c: nat, tid: nat)
    requires LockOk(s) && c < |s.clients| && s.clients[c].Resting?
    requires forall t :: t in s.queue ==> t.tid in s.torrents
    ensures LockOk(AfterSweep(s, c, tid))
    ensures forall t :: t in AfterSweep(s, c, tid).queue ==> t.tid in s.torrents
  {
    SweepKeepsOthers(s.queue, tid, tid);
  }

  lemma {:induction false} SweepClients(s: State, c: nat, tid: nat, d: nat)
    requires Shape(s) && c < |s.clients| && d < |s.clients|
    ensures ClientOk(AfterSweep(s, c, tid), AfterSweep(s, c, tid).clients[d])
  {
    ClientInShape(s, d);
    SweepRoles(s, c, tid);
  }

  lemma {:induction false} SweepShape(s: State, c: nat, tid: nat)
    requires Shape(s) && c < |s.clients| && s.clients[c].Resting?
    ensures Shape(AfterSweep(s, c, tid))
  {
    var r := AfterSweep(s, c, tid);
    SweepRoles(s, c, tid);
    SweepLock(s, c, tid);
    forall other | other in r.torrents
      ensures OwnerOk(r, other)
    {
      OwnerInShape(s, other);
      SweepOwners(s, c, tid, other);
    }
    WorkersKept(s, r);
    forall d | 0 <= d < |r.clients|
      ensures ClientOk(r, r.clients[d])
    {
      SweepClients(s, c, tid, d);
    }
  }

  lemma {:induction false} SweepInv(s: State, c: nat, tid: nat)
    requires Inv(s) && c < |s.clients| && s.clients[c].Resting?
    ensures Inv(AfterSweep(s, c, tid))
  {
    SweepShape(s, c, tid);
    forall other | other in s.torrents
      ensures TorrentOk(AfterSweep(s, c, tid), other)
    {
      BooksAt(s, other);
      SweepBooks(s, c, tid, other);
    }
  }

  lemma {:induction false} LockRemoveInv(s: State, c: nat)
    requires Inv(s) && c < |s.clients| && s.clients[c].Swept? && NoExclusive(s)
    ensures Inv(AfterLockRemove(s, c))
  {
    var tid := s.clients[c].tid;
    if tid in s.torrents {
      ClientMoves(s, c, Removing(tid));
    } else {
      FreshBlank(0, 0);
      BlankBooks(s, tid, Default());
      BlankShape(s, tid, Default());
      ClientMoves(SetTorrent(s, tid, Default()), c, Removing(tid));
    }
  }

  lemma {:induction false} StopInv(s: State, c: nat)
    requires Inv(s) && c < |s.clients| && s.clients[c].Loaded? && Known(s, s.clients[c].tid)
    ensures Inv(AfterStop(s, c))
  {
    ClientMoves(s, c, Resting);
    NoteWrite(SetClient(s, c, Resting), s.clients[c].tid, AfterStop(s, c).torrents[s.clients[c].tid]);
  }

  // ----- All steps, all runs -----

  lemma {:induction false} ReadTidInv(s: State, c: nat)
    requires Inv(s) && c < |s.clients| && s.clients[c].Resting?
    ensures Inv(AfterRead(s, c))
  {
    ClientMoves(s, c, Reading(s.nextTid));
  }

  lemma {:induction false} LoadTidInv(s: State, c: nat)
    requires Inv(s) && c < |s.clients| && s.clients[c].Reading?
    ensures Inv(AfterLoadTid(s, c))
  {
    ClientMoves(s, c, Bumping(s.clients[c].tid, s.nextTid));
  }

  lemma {:induction false} StoreTidShape(s: State, c: nat)
    requires Shape(s) && c < |s.clients| && s.clients[c].Bumping?
    ensures Shape(AfterStoreTid(s, c))
  {
    ClientMovesShape(s, c, Drawn(s.clients[c].tid));
    CounterShape(SetClient(s, c, Drawn(s.clients[c].tid)), s.clients[c].loaded + 1);
  }

  lemma {:induction false} StoreTidInv(s: State, c: nat)
    requires Inv(s) && c < |s.clients| && s.clients[c].Bumping?
    ensures Inv(AfterStoreTid(s, c))
  {
    StoreTidShape(s, c);
    SameBooks(s, AfterStoreTid(s, c));
  }

  lemma {:induction false} AbandonInv(s: State, c: nat)
    requires Inv(s) && c < |s.clients| && s.clients[c].Drawn?
    ensures Inv(SetClient(s, c, Resting))
  {
    ClientMoves(s, c, Resting);
  }

  lemma {:induction false} LoadRemoveInv(s: State, c: nat)
    requires Inv(s) && c < |s.clients| && s.clients[c].Removing? && Known(s, s.clients[c].tid)
    ensures Inv(AfterLook(s, c))
  {
    ClientMoves(s, c, Loaded(s.clients[c].tid, s.torrents[s.clients[c].tid].state));
  }

  lemma {:induction false} ExternalInv(s: State, tid: nat, paused: bool)
    requires Inv(s) && Known(s, tid)
    ensures Inv(AfterExternal(s, tid, paused))
  {
    NoteWrite(s, tid, s.torrents[tid].(state := if paused then Paused else Downloading));
  }

  predicate WorkerStep(step: Step) {
    step.Take? || step.LockCheck? || step.LoadState? || step.Requeue? || step.Save? ||
    step.LockFinish? || step.Score? || step.Count? || step.Compare?
  }

  predicate AddStep(step: Step) {
    step.ReadTid? || step.LoadTid? || step.StoreTid? || step.Abandon? || step.LockAdd? || step.Emplace? || step.Publish?
  }

  lemma {:induction false} WorkerStepInv(s: State, step: Step)
    requires Inv(s) && Enabled(s, step) && WorkerStep(step)
    ensures Inv(Next(s, step))
  {
    match step
    case Take(w) => TakeInv(s, w);
    case LockCheck(w) => LockCheckInv(s, w);
    case LoadState(w) => LoadStateInv(s, w);
    case Requeue(w) => RequeueInv(s, w);
    case Save(w) => SaveInv(s, w);
    case LockFinish(w, peer) => LockFinishInv(s, w, peer);
    case Score(w) => ScoreInv(s, w);
    case Count(w) => CountInv(s, w);
    case Compare(w) => CompareInv(s, w);
  }

  lemma {:induction false} AddStepInv(s: State, step: Step)
    requires Inv(s) && Enabled(s, step) && AddStep(step) && !Readmits(s, step)
    ensures Inv(Next(s, step))
  {
    match step
    case ReadTid(c) => ReadTidInv(s, c);
    case LoadTid(c) => LoadTidInv(s, c);
    case StoreTid(c) => StoreTidInv(s, c);
    case Abandon(c) => AbandonInv(s, c);
    case LockAdd(c, count, peers) => LockAddInv(s, c, count, peers);
    case Emplace(c) => EmplaceInv(s, c);
    case Publish(c) => PublishInv(s, c);
  }

  /** Every step keeps the invariant, unless it adds a torrent again. */
  lemma {:induction false} StepInv(s: State, step: Step)
    requires Inv(s) && Enabled(s, step) && !Readmits(s, step)
    ensures Inv(Next(s, step))
  {
    if WorkerStep(step) {
      WorkerStepInv(s, step);
    } else if AddStep(step) {
      AddStepInv(s, step);
    } else {
      match step
      case Sweep(c, tid) => SweepInv(s, c, tid);
      case LockRemove(c) => LockRemoveInv(s, c);
      case LoadRemove(c) => LoadRemoveInv(s, c);
      case StopTorrent(c) => StopInv(s, c);
      case External(tid, paused) => ExternalInv(s, tid, paused);
    }
  }

  lemma {:induction false} RunInv(s: State, steps: seq<Step>)
    requires Inv(s) && Legal(s, steps) && Proper(s, steps)
    ensures Inv(End(s, steps))
    decreases |steps|
  {
    if steps != [] {
      StepInv(s, steps[0]);
      RunInv(Next(s, steps[0]), steps[1..]);
    }
  }

  /** A run of the program, with any number of workers and clients, that adds no torrent again. */
  ghost predicate Leads(workers: nat, clients: nat, steps: seq<Step>, s: State) {
    Legal(Init(workers, clients), steps) && Proper(Init(workers, clients), steps) &&
      End(Init(workers, clients), steps) == s
  }

  /** The states such runs reach. */
  ghost predicate Reachable(s: State) {
    exists workers: nat, clients: nat, steps :: Leads(workers, clients, steps, s)
  }

  lemma {:induction false} ReachableInv(s: State)
    requires Reachable(s)
    ensures Inv(s)
  {
    var workers: nat, clients: nat, steps :| Leads(workers, clients, steps, s);
    InitInv(workers, clients);
    RunInv(Init(workers, clients), steps);
  }
}
