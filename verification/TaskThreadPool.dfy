/** The task queue of task_thread_pool (thread_pool.cc) as a state machine.  Every step is one
    critical section of the code, or one notification or wake-up outside of it; any number of
    workers and of pushing threads may interleave. */
module TaskThreadPool {
  import opened Totals

  // Where a worker thread is.
  datatype Worker =
    | NotStarted
    | Checking        // about to take the mutex and look at the queue
    | Asleep          // waiting on cv_empty, not notified
    | Notified        // woken, but not yet holding the mutex again
    | Executing(k: nat)  // runs the task that was pushed as number k
    | Leaving         // wait_task returned false
    | Exited

  // Where a thread inside stop() is.
  datatype Stopper = Nobody | Notifying(wake: bool) | Joining

  datatype State = State(
    running: bool,
    pending: seq<nat>,       // the queue, holding the numbers of the tasks
    workers: seq<Worker>,
    flags: seq<bool>,        // worker_t::running
    notifies: nat,           // push_task calls that have queued but not yet notified
    stopper: Stopper,
    pushed: nat,             // tasks pushed so far
    taken: seq<nat>,         // tasks taken off the queue, in that order
    completed: seq<nat>)     // tasks run to their end

  datatype Step =
    | Start
    | Push
    | NotifyOne(chosen: nat)
    | NotifyNobody
    | SpuriousWakeUp(w: nat)
    | WaitTask(w: nat)
    | Finish(w: nat)
    | Exit(w: nat)
    | StopLock
    | StopNotify
    | StopJoin

  function Init(n: nat): State {
    State(false, [], seq(n, i => NotStarted), seq(n, i => false), 0, Nobody, 0, [], [])
  }

  predicate Gone(ws: seq<Worker>) {
    forall i :: 0 <= i < |ws| ==> ws[i] in {NotStarted, Exited}
  }

  predicate Enabled(s: State, step: Step) {
    match step
    case Start => s.stopper == Nobody && !s.running && Gone(s.workers)
    case Push => true
    case NotifyOne(c) => 0 < s.notifies && c < |s.workers| && s.workers[c] == Asleep
    case NotifyNobody => 0 < s.notifies && Asleep !in s.workers
    case SpuriousWakeUp(w) => w < |s.workers| && s.workers[w] == Asleep
    case WaitTask(w) => w < |s.workers| && s.workers[w] in {Checking, Notified}
    case Finish(w) => w < |s.workers| && s.workers[w].Executing?
    case Exit(w) => w < |s.workers| == |s.flags| && s.workers[w] == Leaving
    case StopLock => s.stopper == Nobody && s.running
    case StopNotify => s.stopper.Notifying?
    case StopJoin => s.stopper == Joining && Gone(s.workers)
  }

  function Woken(w: Worker): Worker {
    if w == Asleep then Notified else w
  }

  function WakeAll(ws: seq<Worker>): (r: seq<Worker>)
    ensures |r| == |ws| && forall i :: 0 <= i < |ws| ==> r[i] == Woken(ws[i])
  {
    seq(|ws|, i requires 0 <= i < |ws| => Woken(ws[i]))
  }

  function Apply(s: State, step: Step): (t: State)
    requires Enabled(s, step)
    ensures |t.workers| == |s.workers|
  {
    match step
    case Start =>
      s.(running := true, workers := seq(|s.workers|, i => Checking), flags := seq(|s.workers|, i => true))
    case Push =>
      s.(pending := s.pending + [s.pushed], pushed := s.pushed + 1, notifies := s.notifies + 1)
    case NotifyOne(c) =>
      s.(workers := s.workers[c := Notified], notifies := s.notifies - 1)
    case NotifyNobody =>
      s.(notifies := s.notifies - 1)
    case SpuriousWakeUp(w) =>
      s.(workers := s.workers[w := Notified])
    case WaitTask(w) =>
      if s.running && s.pending == [] then s.(workers := s.workers[w := Asleep])
      else if !s.running then s.(workers := s.workers[w := Leaving])
      else s.(workers := s.workers[w := Executing(s.pending[0])], pending := s.pending[1..], taken := s.taken + [s.pending[0]])
    case Finish(w) =>
      s.(workers := s.workers[w := Checking], completed := s.completed + [s.workers[w].k])
    case Exit(w) =>
      s.(workers := s.workers[w := Exited], flags := s.flags[w := false])
    case StopLock =>
      s.(running := false, stopper := Notifying(true in s.flags))
    case StopNotify =>
      s.(stopper := Joining, workers := if s.stopper.wake then WakeAll(s.workers) else s.workers)
    case StopJoin =>
      s.(stopper := Nobody)
  }

  // A run: the steps happen one after the other, each when it is enabled.
  ghost predicate Run(s: State, steps: seq<Step>, t: State)
    decreases |steps|
  {
    if steps == [] then s == t else Enabled(s, steps[0]) && Run(Apply(s, steps[0]), steps[1..], t)
  }

  function CanCheck(w: Worker): nat {
    if w in {Checking, Notified} then 1 else 0
  }

  // The number of workers that are awake, or woken, and about to look at the queue.
  function Ready(ws: seq<Worker>): nat {
    Sum(ws, CanCheck)
  }

  // ----- Invariants -----

  // While the pool runs, a worker sleeps only if every queued task has a notification on its
  // way or a worker that is about to look for it.
  ghost predicate WorkConserving(s: State) {
    s.running && Asleep in s.workers ==> |s.pending| <= s.notifies + Ready(s.workers)
  }

  ghost predicate FlagsMatch(s: State) {
    && |s.flags| == |s.workers|
    && forall i :: 0 <= i < |s.workers| ==> (s.flags[i] <==> s.workers[i] !in {NotStarted, Exited})
  }

  // Once stop has notified, nobody sleeps.
  ghost predicate StopWakes(s: State) {
    && (s.stopper != Nobody ==> !s.running)
    && (!s.running && Asleep in s.workers ==> s.stopper == Notifying(true))
    && (s.running ==> forall i :: 0 <= i < |s.workers| ==> s.workers[i] !in {NotStarted, Leaving, Exited})
  }

  // The tasks leave the queue in the order they came in, each once.
  ghost predicate Fifo(s: State) {
    s.taken + s.pending == seq(s.pushed, i => i)
  }

  predicate Running(ws: seq<Worker>, k: nat) {
    Executing(k) in ws
  }

  // No task is run twice, neither one after the other nor side by side.
  ghost predicate NeverTwice(s: State) {
    && (forall i, j :: 0 <= i < j < |s.completed| ==> s.completed[i] != s.completed[j])
    && (forall k :: k in s.completed ==> k < |s.taken|)
    && (forall w :: 0 <= w < |s.workers| && s.workers[w].Executing? ==>
          s.workers[w].k < |s.taken| && s.workers[w].k !in s.completed)
    && (forall v, w :: 0 <= v < w < |s.workers| && s.workers[v].Executing? && s.workers[w].Executing? ==>
          s.workers[v].k != s.workers[w].k)
  }

  // A task that has left the queue is being run or has been run to its end.
  ghost predicate NeverLost(s: State) {
    forall k: nat :: k < |s.taken| ==> k in s.completed || Running(s.workers, k)
  }

  ghost predicate Inv(s: State) {
    FlagsMatch(s) && StopWakes(s) && WorkConserving(s) && Fifo(s) && NeverTwice(s) && NeverLost(s)
  }

  // ----- Every step keeps them -----

  lemma KeepsFlags(s: State, step: Step)
    requires FlagsMatch(s) && StopWakes(s) && Enabled(s, step)
    ensures FlagsMatch(Apply(s, step)) && StopWakes(Apply(s, step))
  {
    var t := Apply(s, step);
    match step
    case StopLock =>
      if Asleep in s.workers {
        var i :| 0 <= i < |s.workers| && s.workers[i] == Asleep;
        assert s.flags[i];
      }
    case _ =>
  }

  lemma KeepsWorkConserving(s: State, step: Step)
    requires StopWakes(s) && WorkConserving(s) && Enabled(s, step)
    ensures WorkConserving(Apply(s, step))
  {
    var t := Apply(s, step);
    match step
    case NotifyOne(c) => SumUpdate(s.workers, CanCheck, c, Notified);
    case SpuriousWakeUp(w) => SumUpdate(s.workers, CanCheck, w, Notified);
    case WaitTask(w) =>
      SumUpdate(s.workers, CanCheck, w, t.workers[w]);
      if s.running && s.pending != [] && Asleep in t.workers {
        var i :| 0 <= i < |t.workers| && t.workers[i] == Asleep;
        assert s.workers[i] == Asleep;
      }
    case Finish(w) => SumUpdate(s.workers, CanCheck, w, Checking);
    case Start =>
    case Push =>
    case NotifyNobody =>
    case Exit(w) =>
    case StopLock =>
    case StopNotify =>
    case StopJoin =>
  }

  lemma KeepsFifo(s: State, step: Step)
    requires Fifo(s) && Enabled(s, step)
    ensures Fifo(Apply(s, step))
  {
    var t := Apply(s, step);
    if step.Push? {
      assert t.taken + t.pending == (s.taken + s.pending) + [s.pushed];
    } else {
      assert t.taken + t.pending == s.taken + s.pending;
    }
  }

  // Only the worker itself starts or ends the run of a task.
  lemma ExecutingIsStable(s: State, step: Step, v: nat)
    requires StopWakes(s) && Enabled(s, step) && v < |s.workers|
    ensures s.workers[v].Executing? && step != Finish(v) ==> Apply(s, step).workers[v] == s.workers[v]
    ensures Apply(s, step).workers[v].Executing? && step != WaitTask(v) ==> Apply(s, step).workers[v] == s.workers[v]
  {
  }

  lemma KeepsNeverTwice(s: State, step: Step)
    requires Fifo(s) && NeverTwice(s) && StopWakes(s) && Enabled(s, step)
    ensures NeverTwice(Apply(s, step))
  {
    var t := Apply(s, step);
    forall v: nat | v < |s.workers|
      ensures t.workers[v].Executing? && step != WaitTask(v) ==> t.workers[v] == s.workers[v]
    {
      ExecutingIsStable(s, step, v);
    }
    if step.WaitTask? && t.workers[step.w].Executing? {
      assert (s.taken + s.pending)[|s.taken|] == s.pending[0] == |s.taken|;
    }
    hide StopWakes, Fifo;
  }

  lemma KeepsNeverLost(s: State, step: Step)
    requires Fifo(s) && NeverLost(s) && StopWakes(s) && Enabled(s, step)
    ensures NeverLost(Apply(s, step))
  {
    var t := Apply(s, step);
    if step.WaitTask? && t.workers[step.w].Executing? {
      assert (s.taken + s.pending)[|s.taken|] == s.pending[0] == |s.taken|;
      assert t.workers[step.w] == Executing(|s.taken|);
    }
    if step.Finish? {
      assert t.completed[|s.completed|] == s.workers[step.w].k;
    }
    forall k: nat | k < |t.taken| ensures k in t.completed || Running(t.workers, k) {
      if k < |s.taken| && k !in s.completed {
        var v :| 0 <= v < |s.workers| && s.workers[v] == Executing(k);
        ExecutingIsStable(s, step, v);
      }
    }
  }

  lemma StepKeepsInv(s: State, step: Step)
    requires Inv(s) && Enabled(s, step)
    ensures Inv(Apply(s, step))
  {
    KeepsFlags(s, step);
    KeepsWorkConserving(s, step);
    KeepsFifo(s, step);
    KeepsNeverTwice(s, step);
    KeepsNeverLost(s, step);
  }

  lemma {:induction false} RunKeepsInv(s: State, steps: seq<Step>, t: State)
    requires Inv(s) && Run(s, steps, t)
    ensures Inv(t) && |t.workers| == |s.workers|
    decreases |steps|
  {
    if steps != [] {
      StepKeepsInv(s, steps[0]);
      RunKeepsInv(Apply(s, steps[0]), steps[1..], t);
    }
  }

  // ----- What holds on every run -----

  // A sleeping worker of a running pool never leaves queued tasks behind: there are at most as
  // many of them as notifications on their way and workers about to look.  Tasks leave the queue
  // first in, first out.
  lemma {:induction false} EveryRunIsWorkConserving(n: nat, steps: seq<Step>, t: State)
    requires Run(Init(n), steps, t)
    ensures t.running && Asleep in t.workers ==> |t.pending| <= t.notifies + Ready(t.workers)
    ensures t.taken + t.pending == seq(t.pushed, i => i)
  {
    assert Inv(Init(n));
    RunKeepsInv(Init(n), steps, t);
  }

  // Every task that was pushed is at any time in exactly one place: queued, with one worker, or done.
  lemma {:induction false} EveryTaskRunsOnce(n: nat, steps: seq<Step>, t: State, k: nat)
    requires Run(Init(n), steps, t) && k < t.pushed
    ensures k in t.pending <==> |t.taken| <= k
    ensures k in t.pending ==> k !in t.completed && !Running(t.workers, k)
    ensures k !in t.pending ==> (k in t.completed <==> !Running(t.workers, k))
    ensures multiset(t.completed)[k] <= 1 && multiset(t.pending)[k] <= 1
    ensures forall v, w :: 0 <= v < |t.workers| && 0 <= w < |t.workers| && t.workers[v] == t.workers[w] == Executing(k) ==> v == w
  {
    assert Inv(Init(n));
    RunKeepsInv(Init(n), steps, t);
    var all := seq(t.pushed, i => i);
    assert all == t.taken + t.pending;
    assert forall i :: 0 <= i < |t.pending| ==> t.pending[i] == all[|t.taken| + i] == |t.taken| + i;
    if |t.taken| <= k {
      assert t.pending[k - |t.taken|] == k;
    }
    AtMostOnce(t.completed, k);
    AtMostOnce(t.pending, k);
  }

  lemma {:induction false} AtMostOnce(s: seq<nat>, k: nat)
    requires forall i, j :: 0 <= i < j < |s| ==> s[i] != s[j]
    ensures multiset(s)[k] <= 1
  {
    if s != [] {
      var last := |s| - 1;
      AtMostOnce(s[..last], k);
      assert s == s[..last] + [s[last]];
      if s[last] == k {
        assert k !in s[..last];
      }
    }
  }

  // ----- The queue drains, and stop lets every thread go -----

  // Steps that no other thread of the program has to take: those of the workers and of the
  // pushing and stopping threads that are already inside the pool.
  predicate OwnStep(step: Step) {
    !step.Start? && !step.Push? && !step.StopLock?
  }

  function DrainWeight(w: Worker): nat {
    match w
    case Executing(_) => 2
    case Checking => 1
    case Notified => 1
    case _ => 0
  }

  // What is left to do before a running pool is idle.
  function DrainWork(s: State): nat {
    3 * |s.pending| + 2 * s.notifies + Sum(s.workers, DrainWeight)
  }

  lemma DrainStep(s: State, step: Step)
    requires Inv(s) && s.running && Enabled(s, step) && OwnStep(step) && !step.SpuriousWakeUp?
    ensures Apply(s, step).running && DrainWork(Apply(s, step)) < DrainWork(s)
    ensures Apply(s, step).pushed == s.pushed
  {
    var t := Apply(s, step);
    match step
    case NotifyOne(c) => SumUpdate(s.workers, DrainWeight, c, Notified);
    case NotifyNobody =>
    case WaitTask(w) => SumUpdate(s.workers, DrainWeight, w, t.workers[w]);
    case Finish(w) => SumUpdate(s.workers, DrainWeight, w, Checking);
    case Exit(w) => assert false;
  }

  // When nothing more can happen by itself in a running pool, all its tasks have been run.
  lemma DrainedMeansDone(s: State)
    requires Inv(s) && s.running && s.workers != []
    requires forall step :: Enabled(s, step) && OwnStep(step) ==> step.SpuriousWakeUp?
    ensures s.pending == [] && multiset(s.completed) == multiset(seq(s.pushed, i => i))
    ensures forall i :: 0 <= i < |s.workers| ==> s.workers[i] == Asleep
  {
    forall i | 0 <= i < |s.workers| ensures s.workers[i] == Asleep {
      assert !Enabled(s, WaitTask(i)) && !Enabled(s, Finish(i));
    }
    assert !Enabled(s, NotifyOne(0));
    if 0 < Ready(s.workers) {
      var i := SumPositive(s.workers, CanCheck);
      assert false;
    }
    assert s.workers[0] == Asleep;
    var all := seq(s.pushed, i => i);
    assert s.taken == all;
    forall k: nat ensures k in s.completed <==> k in all {
      assert !Running(s.workers, k);
      if k < s.pushed {
        assert all[k] == k;
      }
    }
    SameElements(s.completed, all);
  }

  lemma SameElements(a: seq<nat>, b: seq<nat>)
    requires forall i, j :: 0 <= i < j < |a| ==> a[i] != a[j]
    requires forall i, j :: 0 <= i < j < |b| ==> b[i] != b[j]
    requires forall k: nat :: k in a <==> k in b
    ensures multiset(a) == multiset(b)
  {
    forall k: nat ensures multiset(a)[k] == multiset(b)[k] {
      AtMostOnce(a, k);
      AtMostOnce(b, k);
      assert k in multiset(a) <==> k in a;
      assert k in multiset(b) <==> k in b;
    }
  }

  // Once started and left alone, a pool with a worker runs every task within DrainWork steps.
  lemma {:induction false} QueueDrains(s: State, steps: seq<Step>, t: State)
    requires Inv(s) && s.running && s.workers != [] && Run(s, steps, t)
    requires forall i :: 0 <= i < |steps| ==> OwnStep(steps[i]) && !steps[i].SpuriousWakeUp?
    ensures |steps| <= DrainWork(s)
    ensures (forall step :: Enabled(t, step) && OwnStep(step) ==> step.SpuriousWakeUp?) ==>
              t.pending == [] && multiset(t.completed) == multiset(seq(s.pushed, i => i))
    decreases |steps|
  {
    if steps == [] {
      if forall step :: Enabled(t, step) && OwnStep(step) ==> step.SpuriousWakeUp? {
        DrainedMeansDone(s);
      }
    } else {
      StepKeepsInv(s, steps[0]);
      DrainStep(s, steps[0]);
      QueueDrains(Apply(s, steps[0]), steps[1..], t);
    }
  }

  function StopWeight(w: Worker): nat {
    match w
    case Executing(_) => 3
    case Asleep => 3
    case Checking => 2
    case Notified => 2
    case Leaving => 1
    case _ => 0
  }

  // What is left to do before a stopped pool is quiet.
  function StopWork(s: State): nat {
    s.notifies + (match s.stopper case Nobody => 0 case Joining => 1 case Notifying(_) => 2) + Sum(s.workers, StopWeight)
  }

  lemma StopStep(s: State, step: Step)
    requires !s.running && Enabled(s, step) && OwnStep(step)
    ensures !Apply(s, step).running && StopWork(Apply(s, step)) < StopWork(s)
  {
    var t := Apply(s, step);
    match step
    case NotifyOne(c) => SumUpdate(s.workers, StopWeight, c, Notified);
    case NotifyNobody =>
    case SpuriousWakeUp(w) => SumUpdate(s.workers, StopWeight, w, Notified);
    case WaitTask(w) => SumUpdate(s.workers, StopWeight, w, Leaving);
    case Finish(w) => SumUpdate(s.workers, StopWeight, w, Checking);
    case Exit(w) => SumUpdate(s.workers, StopWeight, w, Exited);
    case StopNotify => SumMonotone(s.workers, t.workers, StopWeight);
    case StopJoin =>
  }

  // When nothing more can happen by itself in a stopped pool, every worker has ended and stop has returned.
  lemma QuietMeansGone(s: State)
    requires Inv(s) && !s.running
    requires forall step :: Enabled(s, step) ==> !OwnStep(step)
    ensures Gone(s.workers) && s.stopper == Nobody
  {
    assert !Enabled(s, StopNotify);
    forall i | 0 <= i < |s.workers| ensures s.workers[i] in {NotStarted, Exited} {
      assert !Enabled(s, WaitTask(i)) && !Enabled(s, Finish(i)) && !Enabled(s, Exit(i));
    }
    assert !Enabled(s, StopJoin);
  }

  // After stop has cleared the running flag every thread leaves: within StopWork steps, woken
  // spuriously or not, all workers have ended and stop has returned.
  lemma {:induction false} StopEndsEveryThread(s: State, steps: seq<Step>, t: State)
    requires Inv(s) && !s.running && Run(s, steps, t)
    requires forall i :: 0 <= i < |steps| ==> OwnStep(steps[i])
    ensures |steps| <= StopWork(s)
    ensures (forall step :: Enabled(t, step) ==> !OwnStep(step)) ==> Gone(t.workers) && t.stopper == Nobody
    decreases |steps|
  {
    if steps == [] {
      if forall step :: Enabled(t, step) ==> !OwnStep(step) {
        QuietMeansGone(s);
      }
    } else {
      StepKeepsInv(s, steps[0]);
      StopStep(s, steps[0]);
      StopEndsEveryThread(Apply(s, steps[0]), steps[1..], t);
    }
  }
}
