/**
 Runs that show what goes wrong: a removal that overwrites Completed, and two
 clients that add a torrent under one identifier.
 */
module SchedulerScenes {
  import opened Sequences
  import opened Scheduler

  // ----- Runs, step by step -----

  predicate Moves(s: State, step: Step, r: State) {
    Enabled(s, step) && Next(s, step) == r
  }

  predicate Runs(s: State, steps: seq<Step>, r: State) {
    Legal(s, steps) && End(s, steps) == r
  }

  lemma {:induction false} RunsAppend(s: State, a: seq<Step>, m: State, step: Step, r: State)
    requires Runs(s, a, m) && Moves(m, step, r)
    ensures Runs(s, a + [step], r)
    decreases |a|
  {
    if a == [] {
      assert [step][1..] == [] && a + [step] == [step];
    } else {
      RunsAppend(Next(s, a[0]), a[1..], m, step, r);
      FirstOfBoth(a, [step]);
    }
  }

  lemma {:induction false} Then(s: State, a: seq<Step>, m: State, step: Step, r: State) returns (steps: seq<Step>)
    requires Runs(s, a, m) && Moves(m, step, r)
    ensures Runs(s, steps, r)
  {
    steps := a + [step];
    RunsAppend(s, a, m, step, r);
  }

  // ----- A run in which a removal overwrites Completed -----

  /** Torrent 0, one worker and one client. */
  function Scene(queue: seq<Task>, t: Torrent, worker: Worker, client: Client): State {
    State(queue, map[0 := t], [worker], [client], 1)
  }

  /** No torrent, one worker and one client. */
  function Bare(client: Client, nextTid: nat): State {
    State([], map[], [Idle], [client], nextTid)
  }

  /** Torrent 0 with one piece and one peer. */
  function OnePiece(state: TorrentState, score: nat, published: bool): Torrent {
    Torrent(state, 1, 0, [score], 1, published, multiset{}, multiset{}, [], 0)
  }

  const THE_TASK := Task(0, 0)

  lemma {:induction false} Reads(n: nat)
    ensures Moves(Bare(Resting, n), ReadTid(0), Bare(Reading(n), n))
  {
  }

  lemma {:induction false} Loads(n: nat)
    ensures Moves(Bare(Reading(n), n), LoadTid(0), Bare(Bumping(n, n), n))
  {
  }

  lemma {:induction false} Stores(n: nat)
    ensures Moves(Bare(Bumping(n, n), n), StoreTid(0), Bare(Drawn(n), n + 1))
  {
  }

  /** The torrent as it enters the map. */
  function Entered(): Torrent {
    OnePiece(Loading, 1, false).(enqueued := 0)
  }

  lemma {:induction false} FreshEntered()
    ensures Fresh(1, 1) == Entered()
  {
    assert Fresh(1, 1).scores == [1];
  }

  lemma {:induction false} Adds()
    ensures Moves(Bare(Drawn(0), 1), LockAdd(0, 1, 1), Scene([], Entered(), Idle, Adding(0, 0)))
  {
    FreshEntered();
  }

  lemma {:induction false} Emplaces(t: Torrent)
    requires t.count == 1
    ensures Moves(Scene([], t, Idle, Adding(0, 0)), Emplace(0),
                  Scene([THE_TASK], t.(enqueued := t.enqueued + 1), Idle, Adding(0, 1)))
  {
    assert [] + [THE_TASK] == [THE_TASK];
  }

  lemma {:induction false} Publishes(t: Torrent)
    requires t.count == 1
    ensures Moves(Scene([THE_TASK], t, Idle, Adding(0, 1)), Publish(0),
                  Scene([THE_TASK], t.(state := Downloading, published := true), Idle, Resting))
  {
  }

  lemma {:induction false} Takes(t: Torrent)
    ensures Moves(Scene([THE_TASK], t, Idle, Resting), Take(0), Scene([], t, Holding(THE_TASK), Resting))
  {
  }

  lemma {:induction false} Locks(t: Torrent)
    ensures Moves(Scene([], t, Holding(THE_TASK), Resting), LockCheck(0), Scene([], t, Checking(THE_TASK), Resting))
  {
  }

  lemma {:induction false} Checks(t: Torrent)
    requires !t.state.Paused?
    ensures Moves(Scene([], t, Checking(THE_TASK), Resting), LoadState(0), Scene([], t, Processing(THE_TASK), Resting))
  {
  }

  lemma {:induction false} Sweeps(t: Torrent, w: Worker)
    ensures Moves(Scene([], t, w, Resting), Sweep(0, 0), Scene([], t, w, Swept(0)))
  {
    assert t.dropped + PiecesOf([], 0) == t.dropped;
  }

  lemma {:induction false} LocksToRemove(t: Torrent, w: Worker)
    ensures Moves(Scene([], t, w, Swept(0)), LockRemove(0), Scene([], t, w, Removing(0)))
  {
  }

  lemma {:induction false} Looks(t: Torrent, w: Worker)
    ensures Moves(Scene([], t, w, Removing(0)), LoadRemove(0), Scene([], t, w, Loaded(0, t.state)))
  {
  }

  lemma {:induction false} Saves(t: Torrent, c: Client)
    ensures Moves(Scene([], t, Processing(THE_TASK), c), Save(0),
                  Scene([], t.(saved := t.saved + [0]), Saved(THE_TASK), c))
  {
  }

  lemma {:induction false} Finishes(t: Torrent, c: Client)
    requires !c.Adding? && t.scores != []
    ensures Moves(Scene([], t, Saved(THE_TASK), c), LockFinish(0, 0), Scene([], t, Finishing(THE_TASK, 0), c))
  {
  }

  lemma {:induction false} Scores(t: Torrent, c: Client)
    ensures Moves(Scene([], t, Finishing(THE_TASK, 0), c), Score(0), Scene([], Rewarded(t, 0), Scored(THE_TASK), c))
  {
  }

  lemma {:induction false} Counts(t: Torrent, c: Client)
    ensures Moves(Scene([], t, Scored(THE_TASK), c), Count(0),
                  Scene([], Advanced(t, 0), Counted(THE_TASK, t.processed + 1), c))
  {
  }

  lemma {:induction false} Compares(t: Torrent, v: nat, c: Client)
    ensures Moves(Scene([], t, Counted(THE_TASK, v), c), Compare(0), Scene([], Finished(t, v), Idle, c))
  {
  }

  lemma {:induction false} StopsTorrent(t: Torrent, seen: TorrentState)
    requires !seen.Completed? && !seen.Errored?
    ensures Moves(Scene([], t, Idle, Loaded(0, seen)), StopTorrent(0), Scene([], t.(state := Stopped), Idle, Resting))
  {
  }

  /** The client draws an identifier and adds the torrent. */
  lemma {:induction false} SceneAdded() returns (steps: seq<Step>)
    ensures Runs(Init(1, 1), steps, Scene([], Entered(), Idle, Adding(0, 0)))
  {
    var s := Init(1, 1);
    assert s == Bare(Resting, 0);
    Reads(0);
    Loads(0);
    Stores(0);
    Adds();
    steps := Then(s, [], s, ReadTid(0), Bare(Reading(0), 0));
    steps := Then(s, steps, Bare(Reading(0), 0), LoadTid(0), Bare(Bumping(0, 0), 0));
    steps := Then(s, steps, Bare(Bumping(0, 0), 0), StoreTid(0), Bare(Drawn(0), 1));
    steps := Then(s, steps, Bare(Drawn(0), 1), LockAdd(0, 1, 1), Scene([], Entered(), Idle, Adding(0, 0)));
  }

  /** It enqueues the only piece and publishes the torrent. */
  lemma {:induction false} SceneReady(s: State, before: seq<Step>) returns (steps: seq<Step>)
    requires Runs(s, before, Scene([], Entered(), Idle, Adding(0, 0)))
    ensures Runs(s, steps, Scene([THE_TASK], OnePiece(Downloading, 1, true), Idle, Resting))
  {
    var filled := OnePiece(Loading, 1, false);
    Emplaces(Entered());
    Publishes(filled);
    steps := Then(s, before, Scene([], Entered(), Idle, Adding(0, 0)), Emplace(0),
                  Scene([THE_TASK], filled, Idle, Adding(0, 1)));
    steps := Then(s, steps, Scene([THE_TASK], filled, Idle, Adding(0, 1)), Publish(0),
                  Scene([THE_TASK], OnePiece(Downloading, 1, true), Idle, Resting));
  }

  /** The worker takes the task. */
  lemma {:induction false} SceneTaken(s: State, before: seq<Step>, t: Torrent) returns (steps: seq<Step>)
    requires Runs(s, before, Scene([THE_TASK], t, Idle, Resting)) && !t.state.Paused?
    ensures Runs(s, steps, Scene([], t, Processing(THE_TASK), Resting))
  {
    Takes(t);
    Locks(t);
    Checks(t);
    steps := Then(s, before, Scene([THE_TASK], t, Idle, Resting), Take(0), Scene([], t, Holding(THE_TASK), Resting));
    steps := Then(s, steps, Scene([], t, Holding(THE_TASK), Resting), LockCheck(0),
                  Scene([], t, Checking(THE_TASK), Resting));
    steps := Then(s, steps, Scene([], t, Checking(THE_TASK), Resting), LoadState(0),
                  Scene([], t, Processing(THE_TASK), Resting));
  }

  /** The client removes the torrent, up to where it has looked at its state. */
  lemma {:induction false} SceneSeen(s: State, before: seq<Step>, t: Torrent, w: Worker) returns (steps: seq<Step>)
    requires Runs(s, before, Scene([], t, w, Resting))
    ensures Runs(s, steps, Scene([], t, w, Loaded(0, t.state)))
  {
    Sweeps(t, w);
    LocksToRemove(t, w);
    Looks(t, w);
    steps := Then(s, before, Scene([], t, w, Resting), Sweep(0, 0), Scene([], t, w, Swept(0)));
    steps := Then(s, steps, Scene([], t, w, Swept(0)), LockRemove(0), Scene([], t, w, Removing(0)));
    steps := Then(s, steps, Scene([], t, w, Removing(0)), LoadRemove(0), Scene([], t, w, Loaded(0, t.state)));
  }

  /** The worker saves the piece and rewards the peer. */
  lemma {:induction false} SceneScored(s: State, before: seq<Step>, t: Torrent, c: Client) returns (steps: seq<Step>)
    requires Runs(s, before, Scene([], t, Processing(THE_TASK), c)) && !c.Adding? && t.scores != []
    ensures Runs(s, steps, Scene([], Rewarded(t.(saved := t.saved + [0]), 0), Scored(THE_TASK), c))
  {
    var saved := t.(saved := t.saved + [0]);
    Saves(t, c);
    Finishes(saved, c);
    Scores(saved, c);
    steps := Then(s, before, Scene([], t, Processing(THE_TASK), c), Save(0), Scene([], saved, Saved(THE_TASK), c));
    steps := Then(s, steps, Scene([], saved, Saved(THE_TASK), c), LockFinish(0, 0),
                  Scene([], saved, Finishing(THE_TASK, 0), c));
    steps := Then(s, steps, Scene([], saved, Finishing(THE_TASK, 0), c), Score(0),
                  Scene([], Rewarded(saved, 0), Scored(THE_TASK), c));
  }

  /** It counts the piece and completes the torrent; then the client writes what it decided before. */
  lemma {:induction false} SceneStopped(s: State, before: seq<Step>, t: Torrent, seen: TorrentState)
    returns (steps: seq<Step>)
    requires Runs(s, before, Scene([], t, Scored(THE_TASK), Loaded(0, seen))) && !seen.Completed? && !seen.Errored?
    ensures Runs(s, steps, Scene([], Finished(Advanced(t, 0), t.processed + 1).(state := Stopped), Idle, Resting))
  {
    var c, counted := Loaded(0, seen), Advanced(t, 0);
    var done := Finished(counted, t.processed + 1);
    Counts(t, c);
    Compares(counted, t.processed + 1, c);
    StopsTorrent(done, seen);
    steps := Then(s, before, Scene([], t, Scored(THE_TASK), c), Count(0),
                  Scene([], counted, Counted(THE_TASK, t.processed + 1), c));
    steps := Then(s, steps, Scene([], counted, Counted(THE_TASK, t.processed + 1), c), Compare(0),
                  Scene([], done, Idle, c));
    steps := Then(s, steps, Scene([], done, Idle, c), StopTorrent(0),
                  Scene([], done.(state := Stopped), Idle, Resting));
  }

  /** One worker finishes the only piece while one client is between looking and writing. */
  lemma {:induction false} StoppedAfterCompleted() returns (steps: seq<Step>)
    ensures Legal(Init(1, 1), steps)
    ensures var t := End(Init(1, 1), steps).torrents;
      0 in t && t[0].completions == 1 && t[0].state == Stopped
  {
    var s, t := Init(1, 1), OnePiece(Downloading, 1, true);
    steps := SceneAdded();
    steps := SceneReady(s, steps);
    steps := SceneTaken(s, steps, t);
    steps := SceneSeen(s, steps, t, Processing(THE_TASK));
    steps := SceneScored(s, steps, t, Loaded(0, Downloading));
    steps := SceneStopped(s, steps, Rewarded(t.(saved := t.saved + [0]), 0), Downloading);
  }

  // ----- A run in which two clients add under one identifier -----

  /** No workers, two clients. */
  function Pair(torrents: map<nat, Torrent>, queue: seq<Task>, first: Client, second: Client, nextTid: nat): State {
    State(queue, torrents, [], [first, second], nextTid)
  }

  const NO_TORRENTS: map<nat, Torrent> := map[]

  lemma {:induction false} FirstReads(d: Client, n: nat)
    ensures Moves(Pair(NO_TORRENTS, [], Resting, d, n), ReadTid(0), Pair(NO_TORRENTS, [], Reading(n), d, n))
  {
  }

  lemma {:induction false} SecondReads(c: Client, n: nat)
    ensures Moves(Pair(NO_TORRENTS, [], c, Resting, n), ReadTid(1), Pair(NO_TORRENTS, [], c, Reading(n), n))
  {
  }

  lemma {:induction false} FirstLoads(tid: nat, d: Client, n: nat)
    ensures Moves(Pair(NO_TORRENTS, [], Reading(tid), d, n), LoadTid(0), Pair(NO_TORRENTS, [], Bumping(tid, n), d, n))
  {
  }

  lemma {:induction false} FirstStores(tid: nat, loaded: nat, d: Client, n: nat)
    ensures Moves(Pair(NO_TORRENTS, [], Bumping(tid, loaded), d, n), StoreTid(0),
                  Pair(NO_TORRENTS, [], Drawn(tid), d, loaded + 1))
  {
  }

  lemma {:induction false} SecondLoads(c: Client, tid: nat, n: nat)
    ensures Moves(Pair(NO_TORRENTS, [], c, Reading(tid), n), LoadTid(1), Pair(NO_TORRENTS, [], c, Bumping(tid, n), n))
  {
  }

  lemma {:induction false} SecondStores(c: Client, tid: nat, loaded: nat, n: nat)
    ensures Moves(Pair(NO_TORRENTS, [], c, Bumping(tid, loaded), n), StoreTid(1),
                  Pair(NO_TORRENTS, [], c, Drawn(tid), loaded + 1))
  {
  }

  lemma {:induction false} FirstAdds(n: nat)
    ensures Moves(Pair(NO_TORRENTS, [], Drawn(0), Drawn(0), n), LockAdd(0, 1, 1),
                  Pair(map[0 := Entered()], [], Adding(0, 0), Drawn(0), n))
  {
    FreshEntered();
  }

  lemma {:induction false} FirstEmplaces(t: Torrent, n: nat)
    requires t.count == 1
    ensures Moves(Pair(map[0 := t], [], Adding(0, 0), Drawn(0), n), Emplace(0),
                  Pair(map[0 := t.(enqueued := t.enqueued + 1)], [THE_TASK], Adding(0, 1), Drawn(0), n))
  {
    assert [] + [THE_TASK] == [THE_TASK];
  }

  lemma {:induction false} FirstPublishes(t: Torrent, n: nat)
    requires t.count == 1
    ensures Moves(Pair(map[0 := t], [THE_TASK], Adding(0, 1), Drawn(0), n), Publish(0),
                  Pair(map[0 := t.(state := Downloading, published := true)], [THE_TASK], Resting, Drawn(0), n))
  {
  }

  lemma {:induction false} SecondAdds(t: Torrent, n: nat)
    requires t.scores != []
    ensures Moves(Pair(map[0 := t], [THE_TASK], Resting, Drawn(0), n), LockAdd(1, 1, 1),
                  Pair(map[0 := t], [THE_TASK], Resting, Adding(0, 0), n))
  {
    assert map[0 := t][0 := t] == map[0 := t];
  }

  lemma {:induction false} SecondEmplaces(t: Torrent, n: nat)
    requires t.count == 1
    ensures Moves(Pair(map[0 := t], [THE_TASK], Resting, Adding(0, 0), n), Emplace(1),
                  Pair(map[0 := t.(enqueued := t.enqueued + 1)], [THE_TASK, THE_TASK], Resting, Adding(0, 1), n))
  {
    assert [THE_TASK] + [THE_TASK] == [THE_TASK, THE_TASK];
  }

  /** Both read the counter before either stores its successor. */
  lemma {:induction false} PairReads() returns (steps: seq<Step>)
    ensures Runs(Init(0, 2), steps, Pair(NO_TORRENTS, [], Bumping(0, 0), Reading(0), 0))
  {
    var s := Init(0, 2);
    assert s == Pair(NO_TORRENTS, [], Resting, Resting, 0);
    FirstReads(Resting, 0);
    SecondReads(Reading(0), 0);
    FirstLoads(0, Reading(0), 0);
    steps := Then(s, [], s, ReadTid(0), Pair(NO_TORRENTS, [], Reading(0), Resting, 0));
    steps := Then(s, steps, Pair(NO_TORRENTS, [], Reading(0), Resting, 0), ReadTid(1),
                  Pair(NO_TORRENTS, [], Reading(0), Reading(0), 0));
    steps := Then(s, steps, Pair(NO_TORRENTS, [], Reading(0), Reading(0), 0), LoadTid(0),
                  Pair(NO_TORRENTS, [], Bumping(0, 0), Reading(0), 0));
  }

  lemma {:induction false} PairStores(s: State, before: seq<Step>) returns (steps: seq<Step>)
    requires Runs(s, before, Pair(NO_TORRENTS, [], Bumping(0, 0), Reading(0), 0))
    ensures Runs(s, steps, Pair(NO_TORRENTS, [], Drawn(0), Drawn(0), 2))
  {
    FirstStores(0, 0, Reading(0), 0);
    SecondLoads(Drawn(0), 0, 1);
    SecondStores(Drawn(0), 0, 1, 1);
    steps := Then(s, before, Pair(NO_TORRENTS, [], Bumping(0, 0), Reading(0), 0), StoreTid(0),
                  Pair(NO_TORRENTS, [], Drawn(0), Reading(0), 1));
    steps := Then(s, steps, Pair(NO_TORRENTS, [], Drawn(0), Reading(0), 1), LoadTid(1),
                  Pair(NO_TORRENTS, [], Drawn(0), Bumping(0, 1), 1));
    steps := Then(s, steps, Pair(NO_TORRENTS, [], Drawn(0), Bumping(0, 1), 1), StoreTid(1),
                  Pair(NO_TORRENTS, [], Drawn(0), Drawn(0), 2));
  }

  /** The first one adds the torrent, enqueues its only piece and publishes it. */
  lemma {:induction false} PairAdds(s: State, before: seq<Step>) returns (steps: seq<Step>)
    requires Runs(s, before, Pair(NO_TORRENTS, [], Drawn(0), Drawn(0), 2))
    ensures Runs(s, steps, Pair(map[0 := OnePiece(Downloading, 1, true)], [THE_TASK], Resting, Drawn(0), 2))
  {
    var filled := OnePiece(Loading, 1, false);
    FirstAdds(2);
    FirstEmplaces(Entered(), 2);
    FirstPublishes(filled, 2);
    steps := Then(s, before, Pair(NO_TORRENTS, [], Drawn(0), Drawn(0), 2), LockAdd(0, 1, 1),
                  Pair(map[0 := Entered()], [], Adding(0, 0), Drawn(0), 2));
    steps := Then(s, steps, Pair(map[0 := Entered()], [], Adding(0, 0), Drawn(0), 2), Emplace(0),
                  Pair(map[0 := filled], [THE_TASK], Adding(0, 1), Drawn(0), 2));
    steps := Then(s, steps, Pair(map[0 := filled], [THE_TASK], Adding(0, 1), Drawn(0), 2), Publish(0),
                  Pair(map[0 := OnePiece(Downloading, 1, true)], [THE_TASK], Resting, Drawn(0), 2));
  }

  /** The second one finds it there and enqueues its piece again. */
  lemma {:induction false} PairAddsAgain(s: State, before: seq<Step>, t: Torrent) returns (steps: seq<Step>)
    requires Runs(s, before, Pair(map[0 := t], [THE_TASK], Resting, Drawn(0), 2)) && t.count == 1 && t.scores != []
    ensures Runs(s, steps,
                 Pair(map[0 := t.(enqueued := t.enqueued + 1)], [THE_TASK, THE_TASK], Resting, Adding(0, 1), 2))
  {
    SecondAdds(t, 2);
    SecondEmplaces(t, 2);
    steps := Then(s, before, Pair(map[0 := t], [THE_TASK], Resting, Drawn(0), 2), LockAdd(1, 1, 1),
                  Pair(map[0 := t], [THE_TASK], Resting, Adding(0, 0), 2));
    steps := Then(s, steps, Pair(map[0 := t], [THE_TASK], Resting, Adding(0, 0), 2), Emplace(1),
                  Pair(map[0 := t.(enqueued := t.enqueued + 1)], [THE_TASK, THE_TASK], Resting, Adding(0, 1), 2));
  }

  /** Two clients draw the same identifier, and the only piece of the torrent is queued twice. */
  lemma {:induction false} SharedIdentifier() returns (steps: seq<Step>)
    ensures Legal(Init(0, 2), steps)
    ensures var s := End(Init(0, 2), steps);
      0 in s.torrents && s.torrents[0].published && s.torrents[0].count == 1 && s.queue == [Task(0, 0), Task(0, 0)]
  {
    var s := Init(0, 2);
    steps := PairReads();
    steps := PairStores(s, steps);
    steps := PairAdds(s, steps);
    steps := PairAddsAgain(s, steps, OnePiece(Downloading, 1, true));
  }
}
