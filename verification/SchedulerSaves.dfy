/**
 What the scheduler has saved: a piece is counted only after it was written to
 its files, so a completed torrent has had every piece saved.
 */
module SchedulerSaves {
  import opened Scheduler
  import opened SchedulerInvariant
  import opened SchedulerTheorems

  /** The worker has saved its piece and not yet counted it. */
  predicate PastSaving(w: Worker) {
    w.Saved? || w.Finishing? || w.Scored?
  }

  predicate SavedOk(t: Torrent) {
    && (forall k :: k in t.done ==> k in t.saved)
    && (forall k :: k in t.saved ==> k < t.count)
  }

  predicate WorkerSaved(s: State, w: Worker) {
    PastSaving(w) ==> w.task.tid in s.torrents && w.task.piece in s.torrents[w.task.tid].saved
  }

  predicate SavesOk(s: State) {
    && (forall tid :: tid in s.torrents ==> SavedOk(s.torrents[tid]))
    && (forall w | 0 <= w < |s.workers| :: WorkerSaved(s, s.workers[w]))
  }

  /** The record of saved and counted pieces of every torrent stays; new torrents have none. */
  predicate SameRecords(s: State, r: State) {
    && (forall tid :: tid in s.torrents ==> tid in r.torrents)
    && (forall tid :: tid in r.torrents ==>
         if tid in s.torrents then
           r.torrents[tid].done == s.torrents[tid].done && r.torrents[tid].saved == s.torrents[tid].saved &&
           r.torrents[tid].count == s.torrents[tid].count
         else r.torrents[tid].done == multiset{} && r.torrents[tid].saved == [])
  }

  predicate SameSavers(s: State, r: State) {
    |r.workers| == |s.workers| &&
    forall w | 0 <= w < |r.workers| && PastSaving(r.workers[w]) ::
      PastSaving(s.workers[w]) && r.workers[w].task == s.workers[w].task
  }

  lemma {:induction false} KeptBags(s: State, step: Step, tid: nat)
    requires Enabled(s, step) && !step.Save? && !step.Count? && tid in s.torrents
    ensures tid in Next(s, step).torrents
    ensures Next(s, step).torrents[tid].done == s.torrents[tid].done
  {
  }

  lemma {:induction false} KeptRecord(s: State, step: Step, tid: nat)
    requires Enabled(s, step) && !step.Save? && tid in s.torrents
    ensures tid in Next(s, step).torrents
    ensures Next(s, step).torrents[tid].saved == s.torrents[tid].saved
    ensures Next(s, step).torrents[tid].count == s.torrents[tid].count
  {
  }

  lemma {:induction false} NewRecord(s: State, step: Step, tid: nat)
    requires Enabled(s, step) && tid !in s.torrents && tid in Next(s, step).torrents
    ensures Next(s, step).torrents[tid].done == multiset{} && Next(s, step).torrents[tid].saved == []
  {
  }

  lemma {:induction false} QuietRecords(s: State, step: Step, r: State)
    requires Enabled(s, step) && !step.Save? && !step.Count? && r == Next(s, step)
    ensures SameRecords(s, r)
  {
    forall tid | tid in s.torrents
      ensures tid in r.torrents && r.torrents[tid].done == s.torrents[tid].done
      ensures r.torrents[tid].saved == s.torrents[tid].saved && r.torrents[tid].count == s.torrents[tid].count
    {
      KeptBags(s, step, tid);
      KeptRecord(s, step, tid);
    }
    forall tid | tid in r.torrents && tid !in s.torrents
      ensures r.torrents[tid].done == multiset{} && r.torrents[tid].saved == []
    {
      NewRecord(s, step, tid);
    }
  }

  lemma {:induction false} QuietSavers(s: State, step: Step)
    requires Enabled(s, step) && !step.Save? && !step.Count?
    ensures SameSavers(s, Next(s, step))
  {
  }

  lemma {:induction false} QuietSaves(s: State, r: State)
    requires SavesOk(s) && SameRecords(s, r) && SameSavers(s, r)
    ensures SavesOk(r)
  {
    forall tid | tid in r.torrents
      ensures SavedOk(r.torrents[tid])
    {
      if tid in s.torrents {
        assert SavedOk(s.torrents[tid]);
      }
    }
    forall w | 0 <= w < |r.workers|
      ensures WorkerSaved(r, r.workers[w])
    {
      assert WorkerSaved(s, s.workers[w]);
    }
  }

  lemma {:induction false} CarriedInRange(s: State, w: nat)
    requires Inv(s) && w < |s.workers| && s.workers[w].Processing? && Known(s, s.workers[w].task.tid)
    ensures s.workers[w].task.piece < s.torrents[s.workers[w].task.tid].count
  {
    BooksAt(s, s.workers[w].task.tid);
    CarriedIsOpen(s, w, s.workers[w].task.tid);
  }

  lemma {:induction false} SaveSaves(s: State, w: nat)
    requires SavesOk(s) && Enabled(s, Save(w))
    requires s.workers[w].task.piece < s.torrents[s.workers[w].task.tid].count
    ensures SavesOk(AfterSave(s, w))
  {
    var r := AfterSave(s, w);
    forall tid | tid in r.torrents
      ensures SavedOk(r.torrents[tid])
    {
      assert SavedOk(s.torrents[tid]);
    }
    forall v | 0 <= v < |r.workers|
      ensures WorkerSaved(r, r.workers[v])
    {
      assert WorkerSaved(s, s.workers[v]);
    }
  }

  lemma {:induction false} CountSaves(s: State, w: nat)
    requires SavesOk(s) && Enabled(s, Count(w))
    ensures SavesOk(AfterCount(s, w))
  {
    var r := AfterCount(s, w);
    assert WorkerSaved(s, s.workers[w]);
    forall tid | tid in r.torrents
      ensures SavedOk(r.torrents[tid])
    {
      assert SavedOk(s.torrents[tid]);
    }
    forall v | 0 <= v < |r.workers|
      ensures WorkerSaved(r, r.workers[v])
    {
      assert WorkerSaved(s, s.workers[v]);
    }
  }

  lemma {:induction false} StepSaves(s: State, step: Step)
    requires Inv(s) && SavesOk(s) && Enabled(s, step)
    ensures SavesOk(Next(s, step))
  {
    if step.Save? {
      CarriedInRange(s, step.w);
      SaveSaves(s, step.w);
    } else if step.Count? {
      CountSaves(s, step.w);
    } else {
      QuietRecords(s, step, Next(s, step));
      QuietSavers(s, step);
      QuietSaves(s, Next(s, step));
    }
  }

  lemma {:induction false} RunSaves(s: State, steps: seq<Step>)
    requires Inv(s) && SavesOk(s) && Legal(s, steps) && Proper(s, steps)
    ensures SavesOk(End(s, steps))
    decreases |steps|
  {
    if steps != [] {
      StepInv(s, steps[0]);
      StepSaves(s, steps[0]);
      RunSaves(Next(s, steps[0]), steps[1..]);
    }
  }

  lemma {:induction false} ReachableSaves(s: State)
    requires Reachable(s)
    ensures SavesOk(s)
  {
    var workers: nat, clients: nat, steps :| Leads(workers, clients, steps, s);
    InitInv(workers, clients);
    RunSaves(Init(workers, clients), steps);
  }

  /** Every piece of a torrent that was completed has been saved, and nothing but its pieces has. */
  lemma {:induction false} CompletedIsSaved(s: State, tid: nat)
    requires Reachable(s) && tid in s.torrents && s.torrents[tid].completions == 1
    ensures forall k: nat | k < s.torrents[tid].count :: k in s.torrents[tid].saved
    ensures forall i | 0 <= i < |s.torrents[tid].saved| :: s.torrents[tid].saved[i] < s.torrents[tid].count
  {
    var t := s.torrents[tid];
    ReachableSaves(s);
    CompletedMeansDone(s, tid);
    assert SavedOk(t);
    forall k: nat | k < t.count
      ensures k in t.saved
    {
      assert Range(t.count)[k] == 1;
    }
    forall i | 0 <= i < |t.saved|
      ensures t.saved[i] < t.count
    {
      assert t.saved[i] in t.saved;
    }
  }
}
