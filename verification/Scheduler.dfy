/**
 The scheduler: any number of workers running `thread_main` and any number of
 clients calling `add_torrent` and `remove_torrent`, against the shared task
 queue, the torrents map behind its shared mutex, and the atomics of each
 torrent. Every mutex section and every atomic operation is one step, and so is
 every access to the counter of identifiers, which no lock protects.

 `enqueued`, `published`, `done`, `dropped`, `saved` and `completions` record
 history for the properties; no step depends on them. Nothing in the program pauses a torrent,
 but its workers react to it, so pausing and resuming is a step of the
 environment.
 */
module Scheduler {

  datatype Task = Task(tid: nat, piece: nat)

  datatype TorrentState = Loading | Downloading | Paused | Completed | Stopped | Errored

  datatype Torrent = Torrent(
    state: TorrentState,
    count: nat,
    processed: nat,
    scores: seq<nat>,
    enqueued: nat,
    published: bool,
    done: multiset<nat>,
    dropped: multiset<nat>,
    saved: seq<nat>,
    completions: nat)

  /** Where a worker stands in `thread_main`. */
  datatype Worker =
    | Idle
    | Holding(task: Task)
    | Checking(task: Task)
    | Requeueing(task: Task)
    | Processing(task: Task)
    | Saved(task: Task)
    | Finishing(task: Task, peer: nat)
    | Scored(task: Task)
    | Counted(task: Task, value: nat)

  /** Where a client stands in `add_torrent` or `remove_torrent`. */
  datatype Client =
    | Resting
    | Reading(tid: nat)
    | Bumping(tid: nat, loaded: nat)
    | Drawn(tid: nat)
    | Adding(tid: nat, next: nat)
    | Swept(tid: nat)
    | Removing(tid: nat)
    | Loaded(tid: nat, seen: TorrentState)

  datatype State = State(
    queue: seq<Task>,
    torrents: map<nat, Torrent>,
    workers: seq<Worker>,
    clients: seq<Client>,
    nextTid: nat)

  datatype Step =
    | Take(w: nat)
    | LockCheck(w: nat)
    | LoadState(w: nat)
    | Requeue(w: nat)
    | Save(w: nat)
    | LockFinish(w: nat, peer: nat)
    | Score(w: nat)
    | Count(w: nat)
    | Compare(w: nat)
    | ReadTid(c: nat)
    | LoadTid(c: nat)
    | StoreTid(c: nat)
    | Abandon(c: nat)
    | LockAdd(c: nat, count: nat, peers: nat)
    | Emplace(c: nat)
    | Publish(c: nat)
    | Sweep(c: nat, tid: nat)
    | LockRemove(c: nat)
    | LoadRemove(c: nat)
    | StopTorrent(c: nat)
    | External(tid: nat, paused: bool)

  function Init(workers: nat, clients: nat): State {
    State([], map[], seq(workers, _ => Idle), seq(clients, _ => Resting), 0)
  }

  // ----- Locks -----

  predicate WorkerShares(w: Worker) {
    w.Checking? || w.Requeueing? || w.Finishing? || w.Scored? || w.Counted?
  }

  predicate ClientShares(c: Client) {
    c.Removing? || c.Loaded?
  }

  predicate NoExclusive(s: State) {
    forall c | 0 <= c < |s.clients| :: !s.clients[c].Adding?
  }

  predicate NoShared(s: State) {
    && (forall w | 0 <= w < |s.workers| :: !WorkerShares(s.workers[w]))
    && (forall c | 0 <= c < |s.clients| :: !ClientShares(s.clients[c]))
  }

  // ----- Steps -----

  predicate Known(s: State, tid: nat) {
    tid in s.torrents
  }

  predicate Enabled(s: State, step: Step) {
    match step
    case Take(w) => w < |s.workers| && s.workers[w].Idle? && s.queue != []
    case LockCheck(w) => w < |s.workers| && s.workers[w].Holding? && NoExclusive(s)
    case LoadState(w) => w < |s.workers| && s.workers[w].Checking? && Known(s, s.workers[w].task.tid)
    case Requeue(w) => w < |s.workers| && s.workers[w].Requeueing?
    case Save(w) => w < |s.workers| && s.workers[w].Processing? && Known(s, s.workers[w].task.tid)
    case LockFinish(w, peer) =>
      && w < |s.workers| && s.workers[w].Saved? && NoExclusive(s)
      && Known(s, s.workers[w].task.tid) && peer < |s.torrents[s.workers[w].task.tid].scores|
    case Score(w) => w < |s.workers| && s.workers[w].Finishing? && Known(s, s.workers[w].task.tid)
    case Count(w) => w < |s.workers| && s.workers[w].Scored? && Known(s, s.workers[w].task.tid)
    case Compare(w) => w < |s.workers| && s.workers[w].Counted? && Known(s, s.workers[w].task.tid)
    case ReadTid(c) => c < |s.clients| && s.clients[c].Resting?
    case LoadTid(c) => c < |s.clients| && s.clients[c].Reading?
    case StoreTid(c) => c < |s.clients| && s.clients[c].Bumping?
    case Abandon(c) => c < |s.clients| && s.clients[c].Drawn?
    case LockAdd(c, _, _) => c < |s.clients| && s.clients[c].Drawn? && NoExclusive(s) && NoShared(s)
    case Emplace(c) =>
      && c < |s.clients| && s.clients[c].Adding? && Known(s, s.clients[c].tid)
      && s.clients[c].next < s.torrents[s.clients[c].tid].count
    case Publish(c) =>
      && c < |s.clients| && s.clients[c].Adding? && Known(s, s.clients[c].tid)
      && s.clients[c].next == s.torrents[s.clients[c].tid].count
    case Sweep(c, _) => c < |s.clients| && s.clients[c].Resting?
    case LockRemove(c) => c < |s.clients| && s.clients[c].Swept? && NoExclusive(s)
    case LoadRemove(c) => c < |s.clients| && s.clients[c].Removing? && Known(s, s.clients[c].tid)
    case StopTorrent(c) => c < |s.clients| && s.clients[c].Loaded? && Known(s, s.clients[c].tid)
    case External(tid, _) => Known(s, tid)
  }

  function SetWorker(s: State, w: nat, to: Worker): State
    requires w < |s.workers|
  {
    s.(workers := s.workers[w := to])
  }

  function SetClient(s: State, c: nat, to: Client): State
    requires c < |s.clients|
  {
    s.(clients := s.clients[c := to])
  }

  function SetTorrent(s: State, tid: nat, to: Torrent): State {
    s.(torrents := s.torrents[tid := to])
  }

  function Fresh(count: nat, peers: nat): Torrent {
    Torrent(Loading, count, 0, seq(peers, _ => 1), 0, false, multiset{}, multiset{}, [], 0)
  }

  /** What `operator[]` puts in the map for an unknown identifier. */
  function Default(): Torrent {
    Torrent(Errored, 0, 0, [], 0, false, multiset{}, multiset{}, [], 0)
  }

  /** The tasks that survive the sweep of `remove_torrent`. */
  function Others(queue: seq<Task>, tid: nat): seq<Task> {
    if queue == [] then []
    else (if queue[0].tid == tid then [] else [queue[0]]) + Others(queue[1..], tid)
  }

  /** The pieces of one torrent in the queue. */
  function PiecesOf(queue: seq<Task>, tid: nat): multiset<nat> {
    if queue == [] then multiset{}
    else (if queue[0].tid == tid then multiset{queue[0].piece} else multiset{}) + PiecesOf(queue[1..], tid)
  }

  /** `try_extract` with the policy the workers use, which takes the front of the list. */
  function AfterTake(s: State, w: nat): State
    requires w < |s.workers| && s.queue != []
  {
    SetWorker(s, w, Holding(s.queue[0])).(queue := s.queue[1..])
  }

  function AfterLoad(s: State, w: nat): State
    requires w < |s.workers| && s.workers[w].Checking? && Known(s, s.workers[w].task.tid)
  {
    var task := s.workers[w].task;
    SetWorker(s, w, if s.torrents[task.tid].state.Paused? then Requeueing(task) else Processing(task))
  }

  function AfterRequeue(s: State, w: nat): State
    requires w < |s.workers| && s.workers[w].Requeueing?
  {
    SetWorker(s, w, Idle).(queue := s.queue + [s.workers[w].task])
  }

  /** A successful `process`: the piece was downloaded, checked and written to its files. */
  function AfterSave(s: State, w: nat): State
    requires w < |s.workers| && s.workers[w].Processing? && Known(s, s.workers[w].task.tid)
  {
    var task := s.workers[w].task;
    var t := s.torrents[task.tid];
    SetTorrent(SetWorker(s, w, Saved(task)), task.tid, t.(saved := t.saved + [task.piece]))
  }

  function Rewarded(t: Torrent, peer: nat): Torrent {
    if peer < |t.scores| then t.(scores := t.scores[peer := t.scores[peer] + 1]) else t
  }

  function AfterScore(s: State, w: nat): State
    requires w < |s.workers| && s.workers[w].Finishing? && Known(s, s.workers[w].task.tid)
  {
    var task, peer := s.workers[w].task, s.workers[w].peer;
    SetTorrent(SetWorker(s, w, Scored(task)), task.tid, Rewarded(s.torrents[task.tid], peer))
  }

  function Advanced(t: Torrent, piece: nat): Torrent {
    t.(processed := t.processed + 1, done := t.done + multiset{piece})
  }

  function AfterCount(s: State, w: nat): State
    requires w < |s.workers| && s.workers[w].Scored? && Known(s, s.workers[w].task.tid)
  {
    var task := s.workers[w].task;
    var t := s.torrents[task.tid];
    SetTorrent(SetWorker(s, w, Counted(task, t.processed + 1)), task.tid, Advanced(t, task.piece))
  }

  function Finished(t: Torrent, value: nat): Torrent {
    if value == t.count then t.(state := Completed, completions := t.completions + 1) else t
  }

  function AfterCompare(s: State, w: nat): State
    requires w < |s.workers| && s.workers[w].Counted? && Known(s, s.workers[w].task.tid)
  {
    var task, value := s.workers[w].task, s.workers[w].value;
    SetTorrent(SetWorker(s, w, Idle), task.tid, Finished(s.torrents[task.tid], value))
  }

  /** The torrent that `add_torrent` works on: a new one unless the identifier is already in the map. */
  function Admitted(s: State, tid: nat, count: nat, peers: nat): Torrent {
    if tid in s.torrents then s.torrents[tid] else Fresh(count, peers)
  }

  /** `try_emplace` under the exclusive lock: without peers the client marks the torrent and leaves. */
  function AfterLockAdd(s: State, c: nat, count: nat, peers: nat): State
    requires c < |s.clients| && s.clients[c].Drawn?
  {
    var tid := s.clients[c].tid;
    var t := Admitted(s, tid, count, peers);
    if t.scores == [] then SetTorrent(SetClient(s, c, Resting), tid, t.(state := Errored))
    else SetTorrent(SetClient(s, c, Adding(tid, 0)), tid, t)
  }

  function AfterEmplace(s: State, c: nat): State
    requires c < |s.clients| && s.clients[c].Adding? && Known(s, s.clients[c].tid)
  {
    var tid, k := s.clients[c].tid, s.clients[c].next;
    var t := s.torrents[tid];
    var filled := SetTorrent(SetClient(s, c, Adding(tid, k + 1)), tid, t.(enqueued := t.enqueued + 1));
    filled.(queue := s.queue + [Task(tid, k)])
  }

  function AfterPublish(s: State, c: nat): State
    requires c < |s.clients| && s.clients[c].Adding? && Known(s, s.clients[c].tid)
  {
    var tid := s.clients[c].tid;
    SetTorrent(SetClient(s, c, Resting), tid, s.torrents[tid].(state := Downloading, published := true))
  }

  function AfterSweep(s: State, c: nat, tid: nat): State
    requires c < |s.clients|
  {
    var swept := SetClient(s, c, Swept(tid)).(queue := Others(s.queue, tid));
    if tid in s.torrents then
      SetTorrent(swept, tid, s.torrents[tid].(dropped := s.torrents[tid].dropped + PiecesOf(s.queue, tid)))
    else swept
  }

  function AfterLockRemove(s: State, c: nat): State
    requires c < |s.clients| && s.clients[c].Swept?
  {
    var tid := s.clients[c].tid;
    var locked := SetClient(s, c, Removing(tid));
    if tid in s.torrents then locked else SetTorrent(locked, tid, Default())
  }

  function AfterStop(s: State, c: nat): State
    requires c < |s.clients| && s.clients[c].Loaded? && Known(s, s.clients[c].tid)
  {
    var tid, seen := s.clients[c].tid, s.clients[c].seen;
    var t := s.torrents[tid];
    SetTorrent(SetClient(s, c, Resting), tid, if seen.Completed? || seen.Errored? then t else t.(state := Stopped))
  }

  function AfterRead(s: State, c: nat): State
    requires c < |s.clients|
  {
    SetClient(s, c, Reading(s.nextTid))
  }

  function AfterLoadTid(s: State, c: nat): State
    requires c < |s.clients| && s.clients[c].Reading?
  {
    SetClient(s, c, Bumping(s.clients[c].tid, s.nextTid))
  }

  function AfterStoreTid(s: State, c: nat): State
    requires c < |s.clients| && s.clients[c].Bumping?
  {
    SetClient(s, c, Drawn(s.clients[c].tid)).(nextTid := s.clients[c].loaded + 1)
  }

  function AfterLook(s: State, c: nat): State
    requires c < |s.clients| && s.clients[c].Removing? && Known(s, s.clients[c].tid)
  {
    SetClient(s, c, Loaded(s.clients[c].tid, s.torrents[s.clients[c].tid].state))
  }

  function AfterExternal(s: State, tid: nat, paused: bool): State
    requires Known(s, tid)
  {
    SetTorrent(s, tid, s.torrents[tid].(state := if paused then Paused else Downloading))
  }

  function Next(s: State, step: Step): State
    requires Enabled(s, step)
  {
    match step
    case Take(w) => AfterTake(s, w)
    case LockCheck(w) => SetWorker(s, w, Checking(s.workers[w].task))
    case LoadState(w) => AfterLoad(s, w)
    case Requeue(w) => AfterRequeue(s, w)
    case Save(w) => AfterSave(s, w)
    case LockFinish(w, peer) => SetWorker(s, w, Finishing(s.workers[w].task, peer))
    case Score(w) => AfterScore(s, w)
    case Count(w) => AfterCount(s, w)
    case Compare(w) => AfterCompare(s, w)
    case ReadTid(c) => AfterRead(s, c)
    case LoadTid(c) => AfterLoadTid(s, c)
    case StoreTid(c) => AfterStoreTid(s, c)
    case Abandon(c) => SetClient(s, c, Resting)
    case LockAdd(c, count, peers) => AfterLockAdd(s, c, count, peers)
    case Emplace(c) => AfterEmplace(s, c)
    case Publish(c) => AfterPublish(s, c)
    case Sweep(c, tid) => AfterSweep(s, c, tid)
    case LockRemove(c) => AfterLockRemove(s, c)
    case LoadRemove(c) => AfterLook(s, c)
    case StopTorrent(c) => AfterStop(s, c)
    case External(tid, paused) => AfterExternal(s, tid, paused)
  }

  // ----- Runs -----

  predicate Legal(s: State, steps: seq<Step>)
    decreases |steps|
  {
    steps == [] || (Enabled(s, steps[0]) && Legal(Next(s, steps[0]), steps[1..]))
  }

  function End(s: State, steps: seq<Step>): State
    requires Legal(s, steps)
    decreases |steps|
  {
    if steps == [] then s else End(Next(s, steps[0]), steps[1..])
  }

  /** A torrent that has pieces and peers already is added again, under the identifier it has. */
  predicate Readmits(s: State, step: Step)
    requires Enabled(s, step)
  {
    step.LockAdd? &&
    var tid := s.clients[step.c].tid;
    tid in s.torrents && s.torrents[tid].scores != [] && s.torrents[tid].count > 0
  }

  /** A run in which no torrent is added again. */
  predicate Proper(s: State, steps: seq<Step>)
    requires Legal(s, steps)
    decreases |steps|
  {
    steps == [] || (!Readmits(s, steps[0]) && Proper(Next(s, steps[0]), steps[1..]))
  }
}
