/**
 How `add_torrent` draws its identifiers. The counter is read once for the
 identifier and once more to be bumped, and no lock protects it. Identifiers
 repeat exactly when a client reads the counter while another one stands between
 its own read and its store; while that does not happen, no torrent is added again.
 */
module SchedulerDraws {
  import opened Sequences
  import opened Scheduler
  import opened SchedulerInvariant

  /** Between the read of the counter and the store of its successor. */
  predicate Drawing(c: Client) {
    c.Reading? || c.Bumping?
  }

  predicate SomeoneDraws(s: State) {
    exists d :: 0 <= d < |s.clients| && Drawing(s.clients[d])
  }

  /** A client reads the counter while another one is drawing. */
  predicate Overlaps(s: State, step: Step) {
    step.ReadTid? && SomeoneDraws(s)
  }

  predicate Separate(s: State, steps: seq<Step>)
    requires Legal(s, steps)
    decreases |steps|
  {
    steps == [] || (!Overlaps(s, steps[0]) && Separate(Next(s, steps[0]), steps[1..]))
  }

  function DrawnAt(s: State, step: Step): seq<nat> {
    if step.ReadTid? then [s.nextTid] else []
  }

  /** The identifiers drawn in a run, in order. */
  function Draws(s: State, steps: seq<Step>): seq<nat>
    requires Legal(s, steps)
    decreases |steps|
  {
    if steps == [] then [] else DrawnAt(s, steps[0]) + Draws(Next(s, steps[0]), steps[1..])
  }

  /** At most one client is drawing, and what it has read is still what the counter holds. */
  predicate WindowOk(s: State) {
    && (forall c | 0 <= c < |s.clients| && Drawing(s.clients[c]) :: s.clients[c].tid == s.nextTid)
    && (forall c | 0 <= c < |s.clients| && s.clients[c].Bumping? :: s.clients[c].loaded == s.nextTid)
    && (forall c, d | 0 <= c < d < |s.clients| && Drawing(s.clients[c]) :: !Drawing(s.clients[d]))
  }

  /** The identifiers drawn so far differ, and only one that is being drawn has not been passed by the counter. */
  predicate DrawnOk(s: State, drawn: seq<nat>) {
    && Distinct(drawn)
    && (forall x :: x in drawn ==> x < s.nextTid || (x == s.nextTid && SomeoneDraws(s)))
    && (SomeoneDraws(s) ==> s.nextTid in drawn)
  }

  predicate CounterStep(step: Step) {
    step.ReadTid? || step.LoadTid? || step.StoreTid?
  }

  lemma {:induction false} QuietCounter(s: State, step: Step)
    requires Enabled(s, step) && !CounterStep(step)
    ensures Next(s, step).nextTid == s.nextTid && |Next(s, step).clients| == |s.clients|
  {
  }

  lemma {:induction false} QuietClient(s: State, step: Step, d: nat)
    requires Enabled(s, step) && !CounterStep(step) && d < |s.clients| == |Next(s, step).clients|
    ensures Drawing(Next(s, step).clients[d]) <==> Drawing(s.clients[d])
    ensures Drawing(s.clients[d]) ==> Next(s, step).clients[d] == s.clients[d]
  {
  }

  /** Other steps leave the counter and those who draw alone. */
  lemma {:induction false} QuietStep(s: State, step: Step)
    requires Enabled(s, step) && !CounterStep(step)
    ensures Next(s, step).nextTid == s.nextTid && |Next(s, step).clients| == |s.clients|
    ensures forall d | 0 <= d < |s.clients| :: Drawing(Next(s, step).clients[d]) <==> Drawing(s.clients[d])
    ensures forall d | 0 <= d < |s.clients| && Drawing(s.clients[d]) :: Next(s, step).clients[d] == s.clients[d]
  {
    QuietCounter(s, step);
    forall d | 0 <= d < |s.clients|
      ensures Drawing(Next(s, step).clients[d]) <==> Drawing(s.clients[d])
      ensures Drawing(s.clients[d]) ==> Next(s, step).clients[d] == s.clients[d]
    {
      QuietClient(s, step, d);
    }
  }

  lemma {:induction false} CounterWindow(s: State, step: Step)
    requires Enabled(s, step) && CounterStep(step) && WindowOk(s) && !Overlaps(s, step)
    ensures WindowOk(Next(s, step))
  {
  }

  lemma {:induction false} StepWindow(s: State, step: Step)
    requires Enabled(s, step) && WindowOk(s) && !Overlaps(s, step)
    ensures WindowOk(Next(s, step))
  {
    if CounterStep(step) {
      CounterWindow(s, step);
    } else {
      QuietStep(s, step);
    }
  }

  lemma {:induction false} DistinctGrows(xs: seq<nat>, x: nat)
    ensures Distinct(xs + [x]) <==> Distinct(xs) && x !in xs
  {
    var both := xs + [x];
    if Distinct(both) {
      assert forall i | 0 <= i < |xs| :: both[i] == xs[i];
      assert both[|xs|] == x;
    }
  }

  lemma {:induction false} ReadDrawn(s: State, drawn: seq<nat>, c: nat)
    requires c < |s.clients| && DrawnOk(s, drawn) && !SomeoneDraws(s)
    ensures DrawnOk(AfterRead(s, c), drawn + [s.nextTid])
  {
    DistinctGrows(drawn, s.nextTid);
    assert Drawing(AfterRead(s, c).clients[c]);
  }

  lemma {:induction false} LoadDrawn(s: State, drawn: seq<nat>, c: nat)
    requires c < |s.clients| && s.clients[c].Reading? && DrawnOk(s, drawn)
    ensures DrawnOk(AfterLoadTid(s, c), drawn)
  {
    assert Drawing(s.clients[c]) && Drawing(AfterLoadTid(s, c).clients[c]);
  }

  lemma {:induction false} StoreDrawn(s: State, drawn: seq<nat>, c: nat)
    requires c < |s.clients| && s.clients[c].Bumping? && WindowOk(s) && DrawnOk(s, drawn)
    ensures DrawnOk(AfterStoreTid(s, c), drawn)
  {
    var r := AfterStoreTid(s, c);
    assert r.nextTid == s.nextTid + 1;
    forall d | 0 <= d < |r.clients|
      ensures !Drawing(r.clients[d])
    {
      assert Drawing(s.clients[c]);
    }
  }

  lemma {:induction false} StepDrawn(s: State, drawn: seq<nat>, step: Step)
    requires Enabled(s, step) && WindowOk(s) && DrawnOk(s, drawn) && !Overlaps(s, step)
    ensures DrawnOk(Next(s, step), drawn + DrawnAt(s, step))
  {
    if !CounterStep(step) {
      QuietStep(s, step);
    } else if step.ReadTid? {
      ReadDrawn(s, drawn, step.c);
    } else if step.LoadTid? {
      LoadDrawn(s, drawn, step.c);
    } else {
      StoreDrawn(s, drawn, step.c);
    }
    assert drawn + [] == drawn;
  }

  lemma {:induction false} DistinctPrefix(xs: seq<nat>, ys: seq<nat>)
    requires Distinct(xs + ys)
    ensures Distinct(xs)
  {
    assert forall i | 0 <= i < |xs| :: (xs + ys)[i] == xs[i];
  }

  /** From any point of a run: the identifiers stay distinct exactly when no two draws overlap. */
  lemma {:induction false} DrawsFrom(s: State, drawn: seq<nat>, steps: seq<Step>)
    requires Legal(s, steps) && WindowOk(s) && DrawnOk(s, drawn)
    ensures Distinct(drawn + Draws(s, steps)) <==> Separate(s, steps)
    decreases |steps|
  {
    if steps == [] {
      assert drawn + [] == drawn;
    } else {
      var step, rest := steps[0], Draws(Next(s, steps[0]), steps[1..]);
      Associative(drawn, DrawnAt(s, step), rest);
      if Overlaps(s, step) {
        DistinctGrows(drawn, s.nextTid);
        if Distinct(drawn + Draws(s, steps)) {
          DistinctPrefix(drawn + [s.nextTid], rest);
          assert false;
        }
      } else {
        StepWindow(s, step);
        StepDrawn(s, drawn, step);
        DrawsFrom(Next(s, step), drawn + DrawnAt(s, step), steps[1..]);
      }
    }
  }

  /** In every run the drawn identifiers differ exactly when no client reads the counter while another one draws. */
  lemma {:induction false} DrawsExact(workers: nat, clients: nat, steps: seq<Step>)
    requires Legal(Init(workers, clients), steps)
    ensures Distinct(Draws(Init(workers, clients), steps)) <==> Separate(Init(workers, clients), steps)
  {
    DrawsFrom(Init(workers, clients), [], steps);
    assert [] + Draws(Init(workers, clients), steps) == Draws(Init(workers, clients), steps);
  }

  /** Without overlap the counter is ahead of the draws that are done, and each draw gets the next number. */
  predicate CountOk(s: State, drawn: seq<nat>) {
    && (forall i | 0 <= i < |drawn| :: drawn[i] == i)
    && |drawn| == if SomeoneDraws(s) then s.nextTid + 1 else s.nextTid
  }

  lemma {:induction false} StepCounts(s: State, drawn: seq<nat>, step: Step)
    requires Enabled(s, step) && WindowOk(s) && CountOk(s, drawn) && !Overlaps(s, step)
    ensures CountOk(Next(s, step), drawn + DrawnAt(s, step))
  {
    if !CounterStep(step) {
      QuietStep(s, step);
    } else if step.ReadTid? {
      assert Drawing(AfterRead(s, step.c).clients[step.c]);
    } else if step.LoadTid? {
      assert Drawing(s.clients[step.c]) && Drawing(AfterLoadTid(s, step.c).clients[step.c]);
    } else {
      StoreEnds(s, step.c);
    }
  }

  /** The one that stores was the only one drawing, and what it stores is the next number. */
  lemma {:induction false} StoreEnds(s: State, c: nat)
    requires c < |s.clients| && s.clients[c].Bumping? && WindowOk(s)
    ensures SomeoneDraws(s) && !SomeoneDraws(AfterStoreTid(s, c)) && AfterStoreTid(s, c).nextTid == s.nextTid + 1
  {
    assert Drawing(s.clients[c]);
  }

  lemma {:induction false} NumbersFrom(s: State, drawn: seq<nat>, steps: seq<Step>)
    requires Legal(s, steps) && Separate(s, steps) && WindowOk(s) && CountOk(s, drawn)
    ensures forall i | 0 <= i < |drawn + Draws(s, steps)| :: (drawn + Draws(s, steps))[i] == i
    decreases |steps|
  {
    if steps == [] {
      assert drawn + [] == drawn;
    } else {
      StepWindow(s, steps[0]);
      StepCounts(s, drawn, steps[0]);
      Associative(drawn, DrawnAt(s, steps[0]), Draws(Next(s, steps[0]), steps[1..]));
      NumbersFrom(Next(s, steps[0]), drawn + DrawnAt(s, steps[0]), steps[1..]);
    }
  }

  /** In a run whose draws do not overlap, the identifiers drawn are 0, 1, 2, and so on. */
  lemma {:induction false} DrawsCount(workers: nat, clients: nat, steps: seq<Step>, i: nat)
    requires Legal(Init(workers, clients), steps) && Separate(Init(workers, clients), steps)
    requires i < |Draws(Init(workers, clients), steps)|
    ensures Draws(Init(workers, clients), steps)[i] == i
  {
    var s := Init(workers, clients);
    NumbersFrom(s, [], steps);
    assert [] + Draws(s, steps) == Draws(s, steps);
  }

  // ----- Without overlap no torrent is added again -----

  /** Identifiers that clients have drawn differ, and nobody has used them or a later one. */
  predicate UnusedOk(s: State) {
    && (forall c | 0 <= c < |s.clients| && s.clients[c].Drawn? :: s.clients[c].tid < s.nextTid)
    && (forall c, d | 0 <= c < d < |s.clients| && s.clients[c].Drawn? && s.clients[d].Drawn? ::
         s.clients[c].tid != s.clients[d].tid)
    && (forall tid :: tid in s.torrents && s.torrents[tid].scores != [] ==> UsedOk(s, tid))
  }

  predicate UsedOk(s: State, tid: nat) {
    tid < s.nextTid && forall c | 0 <= c < |s.clients| && s.clients[c].Drawn? :: s.clients[c].tid != tid
  }

  lemma {:induction false} StillClients(s: State, step: Step)
    requires Enabled(s, step) && !step.StoreTid? && !step.Abandon? && !step.LockAdd?
    ensures Next(s, step).nextTid == s.nextTid && |Next(s, step).clients| == |s.clients|
    ensures forall d | 0 <= d < |s.clients| && Next(s, step).clients[d].Drawn? ::
            Next(s, step).clients[d] == s.clients[d]
  {
  }

  lemma {:induction false} StillPeers(s: State, step: Step, tid: nat)
    requires Enabled(s, step) && !step.LockAdd? && tid in Next(s, step).torrents
    requires Next(s, step).torrents[tid].scores != []
    ensures tid in s.torrents && s.torrents[tid].scores != []
  {
  }

  /** Most steps change neither who holds a drawn identifier nor which torrents have peers. */
  lemma {:induction false} StillStep(s: State, step: Step)
    requires Enabled(s, step) && !step.StoreTid? && !step.Abandon? && !step.LockAdd?
    ensures Next(s, step).nextTid == s.nextTid && |Next(s, step).clients| == |s.clients|
    ensures forall d | 0 <= d < |s.clients| && Next(s, step).clients[d].Drawn? ::
            Next(s, step).clients[d] == s.clients[d]
    ensures forall tid :: tid in Next(s, step).torrents && Next(s, step).torrents[tid].scores != [] ==>
      tid in s.torrents && s.torrents[tid].scores != []
  {
    var r := Next(s, step);
    StillClients(s, step);
    forall tid | tid in r.torrents && r.torrents[tid].scores != []
      ensures tid in s.torrents && s.torrents[tid].scores != []
    {
      StillPeers(s, step, tid);
    }
  }

  lemma {:induction false} StillUnused(s: State, r: State)
    requires UnusedOk(s) && r.nextTid == s.nextTid && |r.clients| == |s.clients|
    requires forall d | 0 <= d < |s.clients| && r.clients[d].Drawn? :: r.clients[d] == s.clients[d]
    requires forall tid :: tid in r.torrents && r.torrents[tid].scores != [] ==>
      tid in s.torrents && s.torrents[tid].scores != []
    ensures UnusedOk(r)
  {
    forall tid | tid in r.torrents && r.torrents[tid].scores != []
      ensures UsedOk(r, tid)
    {
      assert UsedOk(s, tid);
    }
  }

  lemma {:induction false} StoreUnused(s: State, c: nat)
    requires c < |s.clients| && s.clients[c].Bumping? && WindowOk(s) && UnusedOk(s)
    ensures UnusedOk(AfterStoreTid(s, c))
  {
    var r := AfterStoreTid(s, c);
    assert Drawing(s.clients[c]) && r.nextTid == s.nextTid + 1;
    forall tid | tid in r.torrents && r.torrents[tid].scores != []
      ensures UsedOk(r, tid)
    {
      assert UsedOk(s, tid);
    }
  }

  lemma {:induction false} LockAddUnused(s: State, c: nat, count: nat, peers: nat)
    requires c < |s.clients| && s.clients[c].Drawn? && UnusedOk(s)
    ensures UnusedOk(AfterLockAdd(s, c, count, peers))
  {
    var r := AfterLockAdd(s, c, count, peers);
    assert forall d | 0 <= d < |r.clients| && r.clients[d].Drawn? :: d != c && r.clients[d] == s.clients[d];
    forall tid | tid in r.torrents && r.torrents[tid].scores != []
      ensures UsedOk(r, tid)
    {
      if tid != s.clients[c].tid {
        assert UsedOk(s, tid);
      }
    }
  }

  lemma {:induction false} StepUnused(s: State, step: Step)
    requires Enabled(s, step) && WindowOk(s) && UnusedOk(s)
    ensures UnusedOk(Next(s, step))
  {
    if step.StoreTid? {
      StoreUnused(s, step.c);
    } else if step.LockAdd? {
      LockAddUnused(s, step.c, step.count, step.peers);
    } else {
      if !step.Abandon? {
        StillStep(s, step);
      }
      StillUnused(s, Next(s, step));
    }
  }

  lemma {:induction false} NoReadmission(s: State, step: Step)
    requires Enabled(s, step) && UnusedOk(s)
    ensures !Readmits(s, step)
  {
  }

  lemma {:induction false} SeparateFrom(s: State, steps: seq<Step>)
    requires Legal(s, steps) && Separate(s, steps) && WindowOk(s) && UnusedOk(s)
    ensures Proper(s, steps)
    decreases |steps|
  {
    if steps != [] {
      NoReadmission(s, steps[0]);
      StepWindow(s, steps[0]);
      StepUnused(s, steps[0]);
      SeparateFrom(Next(s, steps[0]), steps[1..]);
    }
  }

  /**
   A run in which draws do not overlap adds no torrent again, whatever the order
   in which clients take the lock after drawing: all that holds of reachable
   states holds at its end.
   */
  lemma {:induction false} SeparateRuns(workers: nat, clients: nat, steps: seq<Step>)
    requires Legal(Init(workers, clients), steps) && Separate(Init(workers, clients), steps)
    ensures Proper(Init(workers, clients), steps) && Reachable(End(Init(workers, clients), steps))
  {
    SeparateFrom(Init(workers, clients), steps);
    assert Leads(workers, clients, steps, End(Init(workers, clients), steps));
  }
}
