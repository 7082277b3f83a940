/**
 The mutex and the two condition variables of the shared queue. A mutex section
 is one step; the notification that follows it outside the mutex is another. A
 waiting thread checks and falls asleep in one step, because the wait releases
 the mutex only once it sleeps; a woken thread checks again, and may also wake
 for no reason.
 */
module WakeUp {

  datatype Pc =
    | Running
    | MustNotifyWork
    | MustNotifyEmpty
    | AsleepForWork
    | WokenForWork
    | AsleepForEmpty
    | WokenForEmpty

  /** How many items are queued, whether waiting is skipped, and where every thread stands. */
  datatype State = State(work: nat, skip: bool, threads: seq<Pc>)

  datatype Step =
    | Insert(t: nat)
    | Extract(t: nat, took: bool)
    | Mutate(t: nat, removed: nat)
    | BeginSkip(t: nat)
    | ForceWakeup(t: nat)
    | NotifyWork(t: nat)
    | NotifyEmpty(t: nat)
    | WaitWork(t: nat)
    | CheckWork(t: nat)
    | WaitEmpty(t: nat)
    | CheckEmpty(t: nat)
    | Spurious(t: nat)

  function Init(threads: nat): State {
    State(0, false, seq(threads, _ => Running))
  }

  predicate WorkReady(s: State) {
    s.work != 0 || s.skip
  }

  predicate EmptyReady(s: State) {
    s.work == 0 || s.skip
  }

  predicate Enabled(s: State, step: Step) {
    step.t < |s.threads| &&
    var pc := s.threads[step.t];
    match step
    case Insert(_) => pc.Running?
    case Extract(_, took) => pc.Running? && (took ==> s.work > 0)
    case Mutate(_, removed) => pc.Running? && removed <= s.work
    case BeginSkip(_) => pc.Running?
    case ForceWakeup(_) => pc.Running?
    case NotifyWork(_) => pc.MustNotifyWork?
    case NotifyEmpty(_) => pc.MustNotifyEmpty?
    case WaitWork(_) => pc.Running?
    case CheckWork(_) => pc.WokenForWork?
    case WaitEmpty(_) => pc.Running?
    case CheckEmpty(_) => pc.WokenForEmpty?
    case Spurious(_) => pc.AsleepForWork? || pc.AsleepForEmpty?
  }

  function Move(s: State, t: nat, pc: Pc): State
    requires t < |s.threads|
  {
    s.(threads := s.threads[t := pc])
  }

  /** `notify_all`: everybody asleep on the condition variable must check again. */
  function Wake(threads: seq<Pc>, from: Pc, to: Pc): (r: seq<Pc>)
    ensures |r| == |threads|
    ensures forall i | 0 <= i < |r| :: r[i] == if threads[i] == from then to else threads[i]
  {
    seq(|threads|, i requires 0 <= i < |threads| => if threads[i] == from then to else threads[i])
  }

  function Next(s: State, step: Step): State
    requires Enabled(s, step)
  {
    var t := step.t;
    match step
    case Insert(_) => Move(s, t, MustNotifyWork).(work := s.work + 1)
    case Extract(_, took) =>
      var left := if took then s.work - 1 else s.work;
      Move(s, t, if left == 0 then MustNotifyEmpty else Running).(work := left)
    case Mutate(_, removed) => Move(s, t, MustNotifyWork).(work := s.work - removed)
    case BeginSkip(_) => Move(s, t, MustNotifyWork).(skip := true)
    case ForceWakeup(_) => s.(threads := Wake(s.threads, AsleepForWork, WokenForWork))
    case NotifyWork(_) => s.(threads := Wake(s.threads[t := Running], AsleepForWork, WokenForWork))
    case NotifyEmpty(_) => s.(threads := Wake(s.threads[t := Running], AsleepForEmpty, WokenForEmpty))
    case WaitWork(_) => Move(s, t, if WorkReady(s) then Running else AsleepForWork)
    case CheckWork(_) => Move(s, t, if WorkReady(s) then Running else AsleepForWork)
    case WaitEmpty(_) => Move(s, t, if EmptyReady(s) then Running else AsleepForEmpty)
    case CheckEmpty(_) => Move(s, t, if EmptyReady(s) then Running else AsleepForEmpty)
    case Spurious(_) => Move(s, t, if s.threads[t].AsleepForWork? then WokenForWork else WokenForEmpty)
  }

  predicate Legal(s: State, steps: seq<Step>)
    decreases |steps|
  {
    steps == [] || (Enabled(s, steps[0]) && Legal(Next(s, steps[0]), steps[1..]))
  }

  function End(s: State, steps: seq<Step>): State
    requires Legal(s, steps)
    decreases |steps|
  {
    if steps == [] then s else End(Next(s, steps[0]), steps[1..])
  }

  predicate Somewhere(s: State, pc: Pc) {
    exists t :: 0 <= t < |s.threads| && s.threads[t] == pc
  }

  // ----- What the steps do -----

  /** A thread that waits, or wakes up to check, goes on exactly if what it waits for holds, and sleeps otherwise. */
  lemma {:induction false} WaitExact(s: State, step: Step)
    requires Enabled(s, step)
    ensures step.WaitWork? || step.CheckWork? ==>
      Next(s, step) == s.(threads := s.threads[step.t := if s.work != 0 || s.skip then Running else AsleepForWork])
    ensures step.WaitEmpty? || step.CheckEmpty? ==>
      Next(s, step) == s.(threads := s.threads[step.t := if s.work == 0 || s.skip then Running else AsleepForEmpty])
  {
  }

  /** A thread that runs may begin any operation; taking and removing are bounded by what is queued. */
  lemma {:induction false} RunningMayBegin(s: State, t: nat, removed: nat)
    requires t < |s.threads|
    ensures s.threads[t].Running? ==>
      && Enabled(s, Insert(t)) && Enabled(s, Extract(t, false)) && Enabled(s, BeginSkip(t))
      && Enabled(s, ForceWakeup(t)) && Enabled(s, WaitWork(t)) && Enabled(s, WaitEmpty(t))
      && (Enabled(s, Extract(t, true)) <==> s.work > 0) && (Enabled(s, Mutate(t, removed)) <==> removed <= s.work)
  {
  }

  /** A thread that wakes for no reason checks again, and sleeps on if nothing it waits for holds. */
  lemma {:induction false} SpuriousChecksAgain(s: State, t: nat)
    requires Enabled(s, Spurious(t))
    ensures var woken := Next(s, Spurious(t));
      if s.threads[t].AsleepForWork? then
        Enabled(woken, CheckWork(t)) && (s.work == 0 && !s.skip ==> Next(woken, CheckWork(t)) == s)
      else
        Enabled(woken, CheckEmpty(t)) && (s.work != 0 && !s.skip ==> Next(woken, CheckEmpty(t)) == s)
  {
    var woken := Next(s, Spurious(t));
    assert woken.threads[t := s.threads[t]] == s.threads;
  }

  /** A notification wakes everybody who sleeps for it, and nobody else. */
  lemma {:induction false} NotifyExact(s: State, step: Step, u: nat)
    requires Enabled(s, step) && u < |s.threads|
    ensures step.NotifyWork? || step.ForceWakeup? ==>
      !Somewhere(Next(s, step), AsleepForWork) &&
      (s.threads[u] == AsleepForWork ==> Next(s, step).threads[u] == WokenForWork)
    ensures step.NotifyEmpty? ==>
      !Somewhere(Next(s, step), AsleepForEmpty) &&
      (s.threads[u] == AsleepForEmpty ==> Next(s, step).threads[u] == WokenForEmpty)
    ensures u != step.t && !s.threads[u].AsleepForWork? && !s.threads[u].AsleepForEmpty? ==>
      Next(s, step).threads[u] == s.threads[u]
  {
  }

  /** Who notifies: inserting, mutating and skipping notify for work, an extraction that leaves nothing for empty. */
  lemma {:induction false} DutyExact(s: State, step: Step)
    requires Enabled(s, step)
    ensures step.Insert? || step.Mutate? || step.BeginSkip? ==> Next(s, step).threads[step.t] == MustNotifyWork
    ensures step.Extract? ==>
      Next(s, step).threads[step.t] == if Next(s, step).work == 0 then MustNotifyEmpty else Running
  {
  }

  /** By how much a step changes the number of queued items. */
  function Change(step: Step): int {
    match step
    case Insert(_) => 1
    case Extract(_, took) => if took then -1 else 0
    case Mutate(_, removed) => 0 - removed
    case _ => 0
  }

  function Changes(steps: seq<Step>): int {
    if steps == [] then 0 else Change(steps[0]) + Changes(steps[1..])
  }

  /** In every run the queue holds what was inserted less what left it, and skipping is on once begun. */
  lemma {:induction false} WorkExact(s: State, steps: seq<Step>)
    requires Legal(s, steps)
    ensures End(s, steps).work == s.work + Changes(steps)
    ensures End(s, steps).skip <==> s.skip || exists i :: 0 <= i < |steps| && steps[i].BeginSkip?
    decreases |steps|
  {
    if steps != [] {
      var next, rest := Next(s, steps[0]), steps[1..];
      WorkExact(next, rest);
      assert forall i | 0 <= i < |rest| :: rest[i] == steps[i + 1];
      if i: nat :| i < |rest| && rest[i].BeginSkip? {
        assert steps[i + 1].BeginSkip?;
      }
      if i: nat :| i < |steps| && steps[i].BeginSkip? {
        assert i > 0 ==> rest[i - 1].BeginSkip?;
      }
    }
  }

  // ----- wait_work -----

  /** If somebody sleeps although there is work, a notification is still to come. */
  predicate NoLostWork(s: State) {
    WorkReady(s) && Somewhere(s, AsleepForWork) ==> Somewhere(s, MustNotifyWork)
  }

  lemma {:induction false} StepKeepsWork(s: State, step: Step)
    requires Enabled(s, step) && NoLostWork(s)
    ensures NoLostWork(Next(s, step))
  {
    var r := Next(s, step);
    if WorkReady(r) && Somewhere(r, AsleepForWork) {
      var t :| 0 <= t < |r.threads| && r.threads[t] == AsleepForWork;
      if step.Insert? || step.Mutate? || step.BeginSkip? {
        assert r.threads[step.t] == MustNotifyWork;
      } else {
        assert s.threads[t] == AsleepForWork;
        var u :| 0 <= u < |s.threads| && s.threads[u] == MustNotifyWork;
        assert r.threads[u] == MustNotifyWork;
      }
    }
  }

  /** No lost wake-up, in every run of any number of threads. */
  lemma {:induction false} RunKeepsWork(s: State, steps: seq<Step>)
    requires NoLostWork(s) && Legal(s, steps)
    ensures NoLostWork(End(s, steps))
    decreases |steps|
  {
    if steps != [] {
      StepKeepsWork(s, steps[0]);
      RunKeepsWork(Next(s, steps[0]), steps[1..]);
    }
  }

  lemma {:induction false} NoLostWakeUp(threads: nat, steps: seq<Step>)
    requires Legal(Init(threads), steps)
    ensures NoLostWork(End(Init(threads), steps))
  {
    RunKeepsWork(Init(threads), steps);
  }

  /** Skipping, once begun, is never undone, and nobody sleeps for work again after its notification. */
  lemma {:induction false} NobodySleepsAgain(s: State, steps: seq<Step>)
    requires s.skip && !Somewhere(s, AsleepForWork) && Legal(s, steps)
    ensures End(s, steps).skip && !Somewhere(End(s, steps), AsleepForWork)
    decreases |steps|
  {
    if steps != [] {
      var r := Next(s, steps[0]);
      forall t | 0 <= t < |r.threads|
        ensures r.threads[t] != AsleepForWork
      {
        assert s.threads[t] != AsleepForWork;
      }
      NobodySleepsAgain(r, steps[1..]);
    }
  }

  // ----- wait_empty -----

  predicate NoLostEmpty(s: State) {
    EmptyReady(s) && Somewhere(s, AsleepForEmpty) ==> Somewhere(s, MustNotifyEmpty)
  }

  /** The two operations that make the queue count as empty without notifying: an emptying mutation and skipping. */
  predicate EmptiesSilently(s: State, step: Step) {
    !EmptyReady(s) && (step.BeginSkip? || (step.Mutate? && step.removed == s.work))
  }

  /** Every other step keeps the property for `wait_empty` too. */
  lemma {:induction false} StepKeepsEmpty(s: State, step: Step)
    requires Enabled(s, step) && NoLostEmpty(s) && !EmptiesSilently(s, step)
    ensures NoLostEmpty(Next(s, step))
  {
    var r := Next(s, step);
    if EmptyReady(r) && Somewhere(r, AsleepForEmpty) {
      var t :| 0 <= t < |r.threads| && r.threads[t] == AsleepForEmpty;
      if step.Extract? && r.work == 0 {
        assert r.threads[step.t] == MustNotifyEmpty;
      } else {
        assert s.threads[t] == AsleepForEmpty;
        assert EmptyReady(s);
        var u :| 0 <= u < |s.threads| && s.threads[u] == MustNotifyEmpty;
        assert r.threads[u] == MustNotifyEmpty;
      }
    }
  }

  /** Those two strand a sleeper unless a notification happens to be on its way already. */
  lemma {:induction false} SilentStepStrands(s: State, step: Step)
    requires Enabled(s, step) && EmptiesSilently(s, step) && Somewhere(s, AsleepForEmpty)
    ensures NoLostEmpty(Next(s, step)) <==> Somewhere(s, MustNotifyEmpty)
  {
    var r := Next(s, step);
    var t :| 0 <= t < |s.threads| && s.threads[t] == AsleepForEmpty;
    assert r.threads[t] == AsleepForEmpty;
    if Somewhere(s, MustNotifyEmpty) {
      var u :| 0 <= u < |s.threads| && s.threads[u] == MustNotifyEmpty;
      assert r.threads[u] == MustNotifyEmpty;
    }
    if Somewhere(r, MustNotifyEmpty) {
      var u :| 0 <= u < |r.threads| && r.threads[u] == MustNotifyEmpty;
      assert s.threads[u] == MustNotifyEmpty;
    }
  }

  /**
   Exactly when a step loses the wake-up of a `wait_empty` sleeper: it empties
   the queue silently while somebody sleeps and no notification is on its way.
   */
  lemma {:induction false} StepExactEmpty(s: State, step: Step)
    requires Enabled(s, step) && NoLostEmpty(s)
    ensures NoLostEmpty(Next(s, step)) <==>
            !(EmptiesSilently(s, step) && Somewhere(s, AsleepForEmpty) && !Somewhere(s, MustNotifyEmpty))
  {
    if !EmptiesSilently(s, step) {
      StepKeepsEmpty(s, step);
    } else if Somewhere(s, AsleepForEmpty) {
      SilentStepStrands(s, step);
    } else {
      var r := Next(s, step);
      forall t | 0 <= t < |r.threads|
        ensures r.threads[t] != AsleepForEmpty
      {
        assert s.threads[t] != AsleepForEmpty;
      }
    }
  }

  /** A thread that waits for the queue to empty sleeps on after a mutation has emptied it. */
  lemma {:induction false} StrandedWaiter() returns (steps: seq<Step>)
    ensures Legal(Init(2), steps)
    ensures var s := End(Init(2), steps);
      s.work == 0 && s.threads == [AsleepForEmpty, Running]
  {
    var s0 := State(0, false, [Running, Running]);
    assert Init(2) == s0;
    var s1 := State(1, false, [Running, MustNotifyWork]);
    var s2 := State(1, false, [Running, Running]);
    var s3 := State(1, false, [AsleepForEmpty, Running]);
    var s4 := State(0, false, [AsleepForEmpty, MustNotifyWork]);
    var s5 := State(0, false, [AsleepForEmpty, Running]);
    assert Next(s0, Insert(1)) == s1 && Next(s1, NotifyWork(1)) == s2 && Next(s2, WaitEmpty(0)) == s3;
    assert Next(s3, Mutate(1, 1)) == s4 && Next(s4, NotifyWork(1)) == s5;
    steps := [Insert(1), NotifyWork(1), WaitEmpty(0), Mutate(1, 1), NotifyWork(1)];
    LegalCons(s4, NotifyWork(1), []);
    LegalCons(s3, Mutate(1, 1), [NotifyWork(1)]);
    LegalCons(s2, WaitEmpty(0), [Mutate(1, 1), NotifyWork(1)]);
    LegalCons(s1, NotifyWork(1), [WaitEmpty(0), Mutate(1, 1), NotifyWork(1)]);
    LegalCons(s0, Insert(1), [NotifyWork(1), WaitEmpty(0), Mutate(1, 1), NotifyWork(1)]);
  }

  lemma {:induction false} LegalCons(s: State, step: Step, rest: seq<Step>)
    requires Enabled(s, step) && Legal(Next(s, step), rest)
    ensures Legal(s, [step] + rest) && End(s, [step] + rest) == End(Next(s, step), rest)
  {
    assert ([step] + rest)[1..] == rest;
  }

  /** A thread that waits for work on an empty queue sleeps. */
  lemma {:induction false} SleepsForWork() returns (steps: seq<Step>)
    ensures Legal(Init(2), steps) && End(Init(2), steps) == State(0, false, [AsleepForWork, Running])
  {
    var s := Init(2);
    assert s == State(0, false, [Running, Running]);
    steps := [WaitWork(0)] + [];
    assert Next(s, WaitWork(0)) == State(0, false, [AsleepForWork, Running]);
    LegalCons(s, WaitWork(0), []);
  }

  /** An insertion wakes it: it finds the work and goes on. */
  lemma {:induction false} WokenByInsert(s: State) returns (steps: seq<Step>)
    requires s == State(0, false, [AsleepForWork, Running])
    ensures Legal(s, steps) && End(s, steps) == State(1, false, [Running, Running])
  {
    var inserted := State(1, false, [AsleepForWork, MustNotifyWork]);
    var notified := State(1, false, [WokenForWork, Running]);
    assert Next(s, Insert(1)) == inserted;
    assert Next(inserted, NotifyWork(1)) == notified;
    assert Next(notified, CheckWork(0)) == State(1, false, [Running, Running]);
    LegalCons(notified, CheckWork(0), []);
    LegalCons(inserted, NotifyWork(1), [CheckWork(0)] + []);
    steps := [Insert(1)] + ([NotifyWork(1)] + ([CheckWork(0)] + []));
    LegalCons(s, Insert(1), [NotifyWork(1)] + ([CheckWork(0)] + []));
  }
}
