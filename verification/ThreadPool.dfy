/** The protocol of thread_pool (thread_pool.cc) as a state machine.  Every step is one critical
    section of the code or one read of a status outside of it, so any interleaving of worker
    threads and calling threads is a sequence of steps. */
module ThreadPool {
  import opened Totals

  datatype Status = STOP | IDLE | START_WORK | WORKER_READY | WORKING

  // Where a worker thread is.
  datatype WorkerPc =
    | NotSetUp
    | LoopTest    // about to test the status at the head of the loop
    | AtLock      // about to enter wait_to_start
    | Sleeping    // waiting on its condition variable, not notified
    | Woken       // notified, but not yet holding the mutex again
    | AfterWait   // about to test the status after wait_to_start
    | Work        // in work_imp
    | Finishing   // about to enter finished
    | Done

  // The numbers of effective starts and of work_imp calls are history, kept to state the results.
  datatype Worker = Worker(status: Status, pc: WorkerPc, starts: nat, works: nat)

  // What a caller waits for: any idle worker, or the one with this id.
  datatype Target = Any | Only(id: nat)

  datatype CallerPc =
    | Free
    | AtCheck(target: Target)    // about to test for an idle worker, with the mutex
    | Blocked(target: Target)    // waiting on cvar_queue, not notified
    | Unblocked(target: Target)  // notified, but not yet holding the mutex again

  // A caller holds the workers that a wait returned to it until it starts or releases them.
  datatype Caller = Caller(pc: CallerPc, held: set<nat>)

  datatype State = State(running: bool, nof: nat, workers: seq<Worker>, callers: seq<Caller>)

  datatype Step =
    | InitWorker
    | WorkerStep(w: nat)
    | SpuriousWorker(w: nat)
    | Wait(c: nat, target: Target)
    | CallerStep(c: nat)
    | SpuriousCaller(c: nat)
    | WaitNb(c: nat)
    | StartWorker(c: nat, w: nat)
    | Release(c: nat, w: nat)
    | Stop

  function Init(maxWorkers: nat, callers: nat): State {
    State(true, 0, seq(maxWorkers, i => Worker(IDLE, NotSetUp, 0, 0)), seq(callers, i => Caller(Free, {})))
  }

  // Workers are set up one after the other; a caller starts or releases only what it holds, and
  // waits only for a worker that is set up.
  predicate Enabled(s: State, step: Step) {
    match step
    case InitWorker => s.nof < |s.workers|
    case WorkerStep(w) => w < |s.workers| && s.workers[w].pc !in {NotSetUp, Sleeping, Done}
    case SpuriousWorker(w) => w < |s.workers| && s.workers[w].pc == Sleeping
    case Wait(c, target) => c < |s.callers| && s.callers[c].pc == Free && (target.Only? ==> target.id < s.nof)
    case CallerStep(c) => c < |s.callers| && (s.callers[c].pc.AtCheck? || s.callers[c].pc.Unblocked?)
    case SpuriousCaller(c) => c < |s.callers| && s.callers[c].pc.Blocked?
    case WaitNb(c) => c < |s.callers| && s.callers[c].pc == Free
    case StartWorker(c, w) => c < |s.callers| && s.callers[c].pc == Free && w in s.callers[c].held && w < |s.workers|
    case Release(c, w) => c < |s.callers| && s.callers[c].pc == Free && w in s.callers[c].held && w < |s.workers|
    case Stop => true
  }

  // ----- The critical sections -----

  function WakeWorker(w: Worker): Worker {
    if w.pc == Sleeping then w.(pc := Woken) else w
  }

  function WakeCaller(c: Caller): Caller {
    if c.pc.Blocked? then c.(pc := Unblocked(c.pc.target)) else c
  }

  // cvar_queue.notify_all()
  function WakeCallers(cs: seq<Caller>): (r: seq<Caller>)
    ensures |r| == |cs| && forall c :: 0 <= c < |cs| ==> r[c] == WakeCaller(cs[c])
  {
    seq(|cs|, c requires 0 <= c < |cs| => WakeCaller(cs[c]))
  }

  // find_finished_worker: the first idle worker with an id of at least i, or nof if there is none.
  function FirstIdle(ws: seq<Worker>, nof: nat, i: nat): (r: nat)
    requires i <= nof <= |ws|
    ensures i <= r <= nof
    ensures r < nof ==> ws[r].status == IDLE
    ensures forall j :: i <= j < r ==> ws[j].status != IDLE
    decreases nof - i
  {
    if i == nof || ws[i].status == IDLE then i else FirstIdle(ws, nof, i + 1)
  }

  // The worker that a waiting caller would take, or nof if it has to go on waiting.
  function Choice(s: State, target: Target): (r: nat)
    requires s.nof <= |s.workers| && (target.Only? ==> target.id < s.nof)
    ensures r < s.nof ==> s.workers[r].status == IDLE
    ensures r >= s.nof ==> match target
                           case Any => forall j :: 0 <= j < s.nof ==> s.workers[j].status != IDLE
                           case Only(id) => s.workers[id].status != IDLE
  {
    match target
    case Any => FirstIdle(s.workers, s.nof, 0)
    case Only(id) => if s.workers[id].status == IDLE then id else s.nof
  }

  function WithWorker(s: State, w: nat, worker: Worker): State
    requires w < |s.workers|
  {
    s.(workers := s.workers[w := worker])
  }

  function WithCaller(s: State, c: nat, caller: Caller): State
    requires c < |s.callers|
  {
    s.(callers := s.callers[c := caller])
  }

  // Makes a worker idle and tells everybody who waits for one.
  function Finished(s: State, w: nat): State
    requires w < |s.workers|
  {
    if s.workers[w].status != STOP then
      WithWorker(s, w, WakeWorker(s.workers[w].(status := IDLE))).(callers := WakeCallers(s.callers))
    else s
  }

  function WorkerSection(s: State, w: nat): State
    requires Enabled(s, WorkerStep(w))
  {
    var worker := s.workers[w];
    match worker.pc
    case LoopTest => WithWorker(s, w, worker.(pc := if worker.status != STOP then AtLock else Done))
    case AfterWait =>
      WithWorker(s, w, if worker.status != STOP then worker.(pc := Work, works := worker.works + 1) else worker.(pc := LoopTest))
    case Work => WithWorker(s, w, worker.(pc := Finishing))
    case Finishing => Finished(WithWorker(s, w, worker.(pc := LoopTest)), w)
    case _ => // wait_to_start, entered or woken
      if worker.status != START_WORK && worker.status != STOP then WithWorker(s, w, worker.(pc := Sleeping))
      else if worker.status != STOP then WithWorker(s, w, worker.(status := WORKING, pc := AfterWait))
      else WithWorker(s, w, worker.(pc := AfterWait))
  }

  function Take(s: State, c: nat, w: nat): State
    requires c < |s.callers| && w < |s.workers|
  {
    WithCaller(WithWorker(s, w, s.workers[w].(status := WORKER_READY)), c, Caller(Free, s.callers[c].held + {w}))
  }

  function CallerSection(s: State, c: nat): State
    requires c < |s.callers| && s.callers[c].pc != Free && s.nof <= |s.workers|
    requires s.callers[c].pc.target.Only? ==> s.callers[c].pc.target.id < s.nof
  {
    var target := s.callers[c].pc.target;
    if !s.running then WithCaller(s, c, s.callers[c].(pc := Free))
    else if Choice(s, target) < s.nof then Take(s, c, Choice(s, target))
    else WithCaller(s, c, s.callers[c].(pc := Blocked(target)))
  }

  function Drop(s: State, c: nat, w: nat): State
    requires c < |s.callers|
  {
    WithCaller(s, c, s.callers[c].(held := s.callers[c].held - {w}))
  }

  function Started(s: State, w: nat): State
    requires w < |s.workers|
  {
    var worker := s.workers[w];
    if worker.status != STOP then
      WithWorker(s, w, WakeWorker(worker.(status := START_WORK, starts := worker.starts + 1))).(callers := WakeCallers(s.callers))
    else s
  }

  function Stopped(s: State): (t: State)
    ensures |t.workers| == |s.workers|
  {
    State(false, s.nof,
      seq(|s.workers|, i requires 0 <= i < |s.workers| =>
            if i < s.nof then WakeWorker(s.workers[i].(status := STOP)) else s.workers[i]),
      if s.nof > 0 then WakeCallers(s.callers) else s.callers)
  }

  // ----- Invariants -----

  predicate WorkerShape(s: State, i: nat)
    requires i < |s.workers|
  {
    if i < s.nof then s.workers[i].pc != NotSetUp else s.workers[i] == Worker(IDLE, NotSetUp, 0, 0)
  }

  predicate CallerShape(s: State, c: nat)
    requires c < |s.callers|
  {
    && (s.callers[c].pc != Free && s.callers[c].pc.target.Only? ==> s.callers[c].pc.target.id < s.nof)
    && (forall w :: w in s.callers[c].held ==> w < s.nof)
  }

  // The workers that are set up come first; callers only know of those.
  predicate Shape(s: State) {
    && s.nof <= |s.workers|
    && (forall i :: 0 <= i < |s.workers| ==> WorkerShape(s, i))
    && (forall c :: 0 <= c < |s.callers| ==> CallerShape(s, c))
  }

  function Apply(s: State, step: Step): (t: State)
    requires Shape(s) && Enabled(s, step)
    ensures |t.workers| == |s.workers| && |t.callers| == |s.callers|
  {
    match step
    case InitWorker =>
      WithWorker(s, s.nof, Worker(IDLE, LoopTest, 0, 0)).(nof := s.nof + 1, callers := WakeCallers(s.callers))
    case WorkerStep(w) => WorkerSection(s, w)
    case SpuriousWorker(w) => WithWorker(s, w, WakeWorker(s.workers[w]))
    case Wait(c, target) => WithCaller(s, c, s.callers[c].(pc := AtCheck(target)))
    case CallerStep(c) => assert CallerShape(s, c); CallerSection(s, c)
    case SpuriousCaller(c) => WithCaller(s, c, WakeCaller(s.callers[c]))
    case WaitNb(c) => if s.running && Choice(s, Any) < s.nof then Take(s, c, Choice(s, Any)) else s
    case StartWorker(c, w) => Started(Drop(s, c, w), w)
    case Release(c, w) => Finished(Drop(s, c, w), w)
    case Stop => Stopped(s)
  }

  ghost predicate Run(s: State, steps: seq<Step>, t: State)
    decreases |steps|
  {
    if steps == [] then s == t else Shape(s) && Enabled(s, steps[0]) && Run(Apply(s, steps[0]), steps[1..], t)
  }

  // A worker that somebody may take, holds or has queued waits at its condition variable or is on its
  // way there.
  predicate PcFits(w: Worker) {
    match w.status
    case STOP => true
    case WORKING => w.pc in {AfterWait, Work, Finishing}
    case _ => w.pc in {NotSetUp, LoopTest, AtLock, Sleeping, Woken}
  }

  // A start is outstanding until work_imp is entered for it.
  predicate Outstanding(w: Worker) {
    w.status == START_WORK || (w.status == WORKING && w.pc == AfterWait)
  }

  predicate CountsFit(w: Worker) {
    if w.status == STOP then w.works <= w.starts <= w.works + 1
    else w.starts == w.works + if Outstanding(w) then 1 else 0
  }

  // A worker that sleeps and has not been notified has no reason to wake up.
  predicate SleepsRightly(w: Worker) {
    w.pc == Sleeping ==> w.status !in {START_WORK, STOP}
  }

  predicate WorkerOk(w: Worker) {
    PcFits(w) && CountsFit(w) && SleepsRightly(w)
  }

  predicate WorkersOk(s: State) {
    forall i :: 0 <= i < |s.workers| ==> WorkerOk(s.workers[i])
  }

  predicate Holds(s: State, c: nat, w: nat) {
    c < |s.callers| && w in s.callers[c].held
  }

  // Held by at most one caller, and then neither queued nor working.
  ghost predicate Owned(s: State) {
    && (forall c: nat, d: nat, w: nat :: Holds(s, c, w) && Holds(s, d, w) ==> c == d)
    && (forall c: nat, w: nat :: Holds(s, c, w) && w < |s.workers| ==>
          s.workers[w].status in {WORKER_READY, STOP} && s.workers[w].pc !in {Work, Finishing})
    && (forall w: nat :: w < |s.workers| && s.workers[w].status == WORKER_READY ==> exists c: nat :: Holds(s, c, w))
  }

  // A caller that waits and has not been notified could not go on: nothing it wants is idle, and
  // the pool has not been stopped (or had no workers when it was).
  predicate BlocksRightly(s: State, c: nat)
    requires Shape(s) && c < |s.callers| && s.callers[c].pc.Blocked?
  {
    assert CallerShape(s, c);
    (s.running || s.nof == 0) && Choice(s, s.callers[c].pc.target) >= s.nof
  }

  predicate CallersBlockRightly(s: State)
    requires Shape(s)
  {
    forall c :: 0 <= c < |s.callers| && s.callers[c].pc.Blocked? ==> BlocksRightly(s, c)
  }

  ghost predicate Inv(s: State) {
    Shape(s) && WorkersOk(s) && Owned(s) && CallersBlockRightly(s)
  }

  // ----- Every step keeps them -----

  lemma KeepsWorkerShape(s: State, step: Step, i: nat)
    requires Shape(s) && Enabled(s, step) && i < |s.workers|
    ensures WorkerShape(Apply(s, step), i)
  {
    assert WorkerShape(s, i);
    match step
    case StartWorker(c, w) => assert CallerShape(s, c);
    case Release(c, w) => assert CallerShape(s, c);
    case CallerStep(c) => assert CallerShape(s, c);
    case _ =>
  }

  lemma KeepsCallerShape(s: State, step: Step, c: nat)
    requires Shape(s) && Enabled(s, step) && c < |s.callers|
    ensures CallerShape(Apply(s, step), c)
  {
    assert CallerShape(s, c);
    hide Shape, WorkerShape;
  }

  lemma KeepsShape(s: State, step: Step)
    requires Shape(s) && Enabled(s, step)
    ensures Shape(Apply(s, step))
  {
    forall i: nat | i < |s.workers| ensures WorkerShape(Apply(s, step), i) {
      KeepsWorkerShape(s, step, i);
    }
    forall c: nat | c < |s.callers| ensures CallerShape(Apply(s, step), c) {
      KeepsCallerShape(s, step, c);
    }
    NofAfter(s, step);
    hide Apply, WorkerShape, CallerShape;
  }

  lemma NofAfter(s: State, step: Step)
    requires Shape(s) && Enabled(s, step)
    ensures Apply(s, step).nof == s.nof + if step.InitWorker? then 1 else 0
  {
  }

  lemma SectionKeepsWorker(s: State, w: nat, i: nat)
    requires Shape(s) && WorkersOk(s) && Enabled(s, WorkerStep(w)) && i < |s.workers|
    ensures WorkerOk(WorkerSection(s, w).workers[i])
  {
    assert WorkerOk(s.workers[w]) && WorkerOk(s.workers[i]);
  }

  // What one step does to one worker.
  lemma KeepsWorker(s: State, step: Step, i: nat)
    requires Shape(s) && WorkersOk(s) && Owned(s) && Enabled(s, step) && i < |s.workers|
    ensures WorkerOk(Apply(s, step).workers[i])
  {
    assert WorkerOk(s.workers[i]);
    match step
    case WorkerStep(w) => SectionKeepsWorker(s, w, i); hide *;
    case StartWorker(c, w) => assert Holds(s, c, w); hide WorkerSection;
    case Release(c, w) => assert Holds(s, c, w); hide WorkerSection;
    case _ => hide WorkerSection, Owned;
  }

  lemma KeepsWorkers(s: State, step: Step)
    requires Shape(s) && WorkersOk(s) && Owned(s) && Enabled(s, step)
    ensures WorkersOk(Apply(s, step))
  {
    forall i: nat | i < |s.workers| ensures WorkerOk(Apply(s, step).workers[i]) {
      KeepsWorker(s, step, i);
    }
  }

  // What one step does to who holds what.
  lemma HoldsAfter(s: State, step: Step, c: nat, w: nat)
    requires Shape(s) && Enabled(s, step)
    ensures Holds(Apply(s, step), c, w) <==>
              (Holds(s, c, w) && step != StartWorker(c, w) && step != Release(c, w)) || TakenBy(s, step, c, w)
  {
  }

  // The step gives an idle worker to this caller.
  predicate TakenBy(s: State, step: Step, c: nat, w: nat)
    requires Shape(s) && Enabled(s, step)
  {
    && s.running && w < s.nof && s.workers[w].status == IDLE && c < |s.callers|
    && match step
       case WaitNb(d) => c == d && w == Choice(s, Any)
       case CallerStep(d) => assert CallerShape(s, d); c == d && w == Choice(s, s.callers[d].pc.target)
       case _ => false
  }

  // The caller that a step may give a worker to.
  function Taker(step: Step): nat {
    match step
    case WaitNb(c) => c
    case CallerStep(c) => c
    case _ => 0
  }

  lemma ReadyAfter(s: State, step: Step, w: nat)
    requires Shape(s) && WorkersOk(s) && Enabled(s, step) && w < |s.workers|
    ensures Apply(s, step).workers[w].status == WORKER_READY ==>
              (s.workers[w].status == WORKER_READY && (forall c :: step != StartWorker(c, w) && step != Release(c, w)))
              || TakenBy(s, step, Taker(step), w)
  {
  }

  // A worker that is held, or that is taken, is neither started nor set idle behind the caller's back.
  lemma HeldAfter(s: State, step: Step, c: nat, w: nat)
    requires Shape(s) && WorkersOk(s) && Owned(s) && Enabled(s, step) && w < |s.workers|
    requires (Holds(s, c, w) && step != StartWorker(c, w) && step != Release(c, w)) || TakenBy(s, step, c, w)
    ensures Apply(s, step).workers[w].status in {WORKER_READY, STOP} && Apply(s, step).workers[w].pc !in {Work, Finishing}
  {
    assert WorkerOk(s.workers[w]);
    if Holds(s, c, w) {
      assert CallerShape(s, c);
    }
    if step.StartWorker? || step.Release? {
      assert Holds(s, step.c, step.w);
    }
    assert s.nof <= |s.workers|;
    hide Shape;
  }

  lemma KeepsOwned(s: State, step: Step)
    requires Shape(s) && WorkersOk(s) && Owned(s) && Enabled(s, step)
    ensures Owned(Apply(s, step))
  {
    assert s.nof <= |s.workers|;
    hide Apply, Shape, WorkersOk, Enabled;
    var t := Apply(s, step);
    forall c: nat, w: nat
      ensures Holds(t, c, w) <==>
              (Holds(s, c, w) && step != StartWorker(c, w) && step != Release(c, w)) || TakenBy(s, step, c, w)
    {
      HoldsAfter(s, step, c, w);
    }
    forall c: nat, w: nat | Holds(t, c, w) && w < |t.workers|
      ensures t.workers[w].status in {WORKER_READY, STOP} && t.workers[w].pc !in {Work, Finishing}
    {
      HeldAfter(s, step, c, w);
    }
    forall w: nat | w < |t.workers| && t.workers[w].status == WORKER_READY
      ensures exists c: nat :: Holds(t, c, w)
    {
      ReadyAfter(s, step, w);
      if !TakenBy(s, step, Taker(step), w) {
        var c: nat :| Holds(s, c, w);
        assert Holds(t, c, w);
      } else {
        assert Holds(t, Taker(step), w);
      }
    }
  }

  lemma SectionWakes(s: State, v: nat, w: nat, c: nat)
    requires Shape(s) && Enabled(s, WorkerStep(v)) && c < |s.callers|
    requires WorkerSection(s, v).callers[c].pc.Blocked?
    ensures s.callers[c].pc == WorkerSection(s, v).callers[c].pc
    ensures s.nof == WorkerSection(s, v).nof && s.running == WorkerSection(s, v).running
    ensures w < s.nof && WorkerSection(s, v).workers[w].status == IDLE ==> s.workers[w].status == IDLE
  {
  }

  // Whatever makes a worker idle, or stops the pool, wakes all callers.
  lemma NewlyIdleWakes(s: State, step: Step, w: nat, c: nat)
    requires Shape(s) && Enabled(s, step) && c < |s.callers|
    requires Apply(s, step).callers[c].pc.Blocked? && step != CallerStep(c)
    ensures s.callers[c].pc == Apply(s, step).callers[c].pc
    ensures s.nof == Apply(s, step).nof
    ensures s.running && s.nof > 0 ==> Apply(s, step).running
    ensures w < s.nof && Apply(s, step).workers[w].status == IDLE ==> s.workers[w].status == IDLE
  {
    hide Choice, WorkerSection;
    if step.WorkerStep? {
      SectionWakes(s, step.w, w, c);
    }
  }

  lemma KeepsCallerBlocked(s: State, step: Step, c: nat)
    requires Shape(s) && CallersBlockRightly(s) && Enabled(s, step) && c < |s.callers|
    requires Shape(Apply(s, step)) && Apply(s, step).callers[c].pc.Blocked?
    ensures BlocksRightly(Apply(s, step), c)
  {
    var t := Apply(s, step);
    assert CallerShape(s, c);
    if step == CallerStep(c) {
      assert t == WithCaller(s, c, s.callers[c].(pc := Blocked(s.callers[c].pc.target)));
    } else {
      forall w: nat ensures w < s.nof && t.workers[w].status == IDLE ==> s.workers[w].status == IDLE {
        NewlyIdleWakes(s, step, w, c);
      }
      assert s.callers[c].pc == t.callers[c].pc && s.nof == t.nof && (s.running && s.nof > 0 ==> t.running) by {
        NewlyIdleWakes(s, step, 0, c);
      }
      hide Apply, Enabled, Shape;
      assert BlocksRightly(s, c);
    }
  }

  lemma KeepsBlocked(s: State, step: Step)
    requires Shape(s) && CallersBlockRightly(s) && Enabled(s, step)
    ensures Shape(Apply(s, step)) && CallersBlockRightly(Apply(s, step))
  {
    hide Shape, Enabled, Apply, BlocksRightly;
    KeepsShape(s, step);
    forall c: nat | c < |s.callers| && Apply(s, step).callers[c].pc.Blocked?
      ensures BlocksRightly(Apply(s, step), c)
    {
      KeepsCallerBlocked(s, step, c);
    }
  }

  lemma StepKeepsInv(s: State, step: Step)
    requires Inv(s) && Enabled(s, step)
    ensures Inv(Apply(s, step))
  {
    KeepsWorkers(s, step);
    KeepsOwned(s, step);
    KeepsBlocked(s, step);
    hide *;
  }

  lemma {:induction false} RunKeepsInv(s: State, steps: seq<Step>, t: State)
    requires Inv(s) && Run(s, steps, t)
    ensures Inv(t) && |t.workers| == |s.workers| && |t.callers| == |s.callers|
    decreases |steps|
  {
    hide Inv, Enabled, Apply, Shape;
    if steps != [] {
      StepKeepsInv(s, steps[0]);
      RunKeepsInv(Apply(s, steps[0]), steps[1..], t);
    }
  }

  lemma InitIsFine(maxWorkers: nat, callers: nat)
    ensures Inv(Init(maxWorkers, callers))
  {
  }

  // ----- Ownership -----

  // On every run a worker is held by at most one caller, and while it is held it is neither queued
  // nor working; a worker that is marked as handed out is held.
  lemma {:induction false} EveryWorkerHasOneOwner(maxWorkers: nat, callers: nat, steps: seq<Step>, t: State, w: nat)
    requires Run(Init(maxWorkers, callers), steps, t) && w < maxWorkers
    ensures |t.workers| == maxWorkers
    ensures forall c: nat, d: nat :: Holds(t, c, w) && Holds(t, d, w) ==> c == d
    ensures t.workers[w].status in {IDLE, START_WORK, WORKING} || t.workers[w].pc in {Work, Finishing} ==>
              forall c: nat :: !Holds(t, c, w)
    ensures t.workers[w].status == WORKER_READY <==> t.workers[w].status != STOP && exists c: nat :: Holds(t, c, w)
    ensures t.workers[w].pc in {Work, Finishing} ==> t.workers[w].status in {WORKING, STOP}
  {
    InitIsFine(maxWorkers, callers);
    RunKeepsInv(Init(maxWorkers, callers), steps, t);
    assert WorkerOk(t.workers[w]);
  }

  // Each start gives one call of work_imp: the two counts differ by at most one, and agree once
  // nothing is outstanding.
  lemma {:induction false} EveryStartIsOneWork(maxWorkers: nat, callers: nat, steps: seq<Step>, t: State, w: nat)
    requires Run(Init(maxWorkers, callers), steps, t) && w < maxWorkers
    ensures |t.workers| == maxWorkers
    ensures t.workers[w].works <= t.workers[w].starts <= t.workers[w].works + 1
    ensures t.workers[w].status != STOP ==>
              (t.workers[w].starts == t.workers[w].works + 1 <==> Outstanding(t.workers[w]))
  {
    InitIsFine(maxWorkers, callers);
    RunKeepsInv(Init(maxWorkers, callers), steps, t);
    assert WorkerOk(t.workers[w]);
  }

  lemma StopIsKept(s: State, step: Step, w: nat)
    requires Shape(s) && Enabled(s, step) && w < s.nof && s.workers[w].status == STOP
    ensures Apply(s, step).workers[w].status == STOP
    ensures Apply(s, step).workers[w].starts == s.workers[w].starts
    ensures Apply(s, step).workers[w].works == s.workers[w].works
  {
    assert WorkerShape(s, w);
    hide WorkerShape, CallerShape;
  }

  // STOP is never left, and a stopped worker never begins to work again.
  lemma {:induction false} StopIsFinal(s: State, steps: seq<Step>, t: State, w: nat)
    requires Inv(s) && Run(s, steps, t) && w < s.nof && s.workers[w].status == STOP
    ensures w < |t.workers| && t.workers[w].status == STOP
    ensures t.workers[w].starts == s.workers[w].starts && t.workers[w].works == s.workers[w].works
    decreases |steps|
  {
    if steps != [] {
      StopIsKept(s, steps[0], w);
      StepKeepsInv(s, steps[0]);
      NofAfter(s, steps[0]);
      hide Apply, Enabled;
      StopIsFinal(Apply(s, steps[0]), steps[1..], t, w);
    } else {
      assert Shape(s);
    }
  }

  // ----- No lost wake-ups -----

  // The number of its own steps that a started worker is away from work_imp.
  function StepsToWork(w: Worker): nat {
    match w.pc
    case LoopTest => 3
    case AfterWait => 1
    case _ => 2
  }

  // A started worker can always take its next step, and every one brings it closer to work_imp; no
  // step of another thread but stop takes it away from there.
  lemma StartedWorkerGetsToWork(s: State, step: Step, w: nat)
    requires Inv(s) && w < s.nof && Outstanding(s.workers[w])
    requires Enabled(s, step) && step != Stop
    ensures Enabled(s, WorkerStep(w))
    ensures var now, next := s.workers[w], Apply(s, step).workers[w];
            if step == WorkerStep(w) then
              if StepsToWork(now) == 1 then next.pc == Work && next.works == now.works + 1
              else Outstanding(next) && StepsToWork(next) + 1 == StepsToWork(now)
            else Outstanding(next) && StepsToWork(next) == StepsToWork(now)
  {
    assert WorkerOk(s.workers[w]);
    assert WorkerShape(s, w);
    if step.StartWorker? || step.Release? {
      assert Holds(s, step.c, step.w);
    }
    hide Shape, CallersBlockRightly;
  }

  // On every run: a worker that sleeps un-notified has nothing to do; a caller that sleeps
  // un-notified finds no idle worker, and waits in a pool that is running or has no workers.
  lemma {:induction false} NobodySleepsForNothing(maxWorkers: nat, callers: nat, steps: seq<Step>, t: State)
    requires Run(Init(maxWorkers, callers), steps, t)
    ensures t.nof <= |t.workers|
    ensures forall w :: 0 <= w < |t.workers| && t.workers[w].pc == Sleeping ==> t.workers[w].status !in {START_WORK, STOP}
    ensures forall c :: 0 <= c < |t.callers| && t.callers[c].pc == Blocked(Any) ==>
              (t.running || t.nof == 0) && forall w :: 0 <= w < t.nof ==> t.workers[w].status != IDLE
    ensures forall c: nat, id: nat :: 0 <= c < |t.callers| && t.callers[c].pc == Blocked(Only(id)) ==>
              t.running && id < t.nof && t.workers[id].status != IDLE
  {
    InitIsFine(maxWorkers, callers);
    RunKeepsInv(Init(maxWorkers, callers), steps, t);
    forall w | 0 <= w < |t.workers| ensures SleepsRightly(t.workers[w]) {
      assert WorkerOk(t.workers[w]);
    }
    forall c | 0 <= c < |t.callers| && t.callers[c].pc.Blocked? ensures CallerShape(t, c) && BlocksRightly(t, c) {
    }
    hide Run, Shape, WorkerShape, Owned;
  }

  // ----- Stop -----

  predicate Halted(s: State) {
    !s.running && 0 < s.nof <= |s.workers| && forall w :: 0 <= w < s.nof ==> s.workers[w].status == STOP
  }

  // stop wakes every sleeping caller exactly when the pool has a worker: notify_all is only called
  // in the loop over the workers.
  lemma StopWakesCallers(s: State)
    requires Inv(s)
    ensures (forall c :: 0 <= c < |s.callers| ==> !Apply(s, Stop).callers[c].pc.Blocked?) <==>
            (s.nof > 0 || forall c :: 0 <= c < |s.callers| ==> !s.callers[c].pc.Blocked?)
    ensures s.nof > 0 ==> Halted(Apply(s, Stop))
  {
    var t := Apply(s, Stop);
    if s.nof > 0 {
      assert forall c :: 0 <= c < |s.callers| ==> t.callers[c] == WakeCaller(s.callers[c]);
    }
  }

  // A pool without workers: the caller goes to sleep, stop does not wake it, and only a spurious
  // wake-up could.
  lemma StopStrandsCallersOfAnEmptyPool()
    ensures var steps := [Wait(0, Any), CallerStep(0), Stop];
            var stuck := State(false, 0, [], [Caller(Blocked(Any), {})]);
            && Run(Init(0, 1), steps, stuck)
            && forall step :: Enabled(stuck, step) && OwnStep(step) ==> step == SpuriousCaller(0)
  {
    var s0 := Init(0, 1);
    var s1 := Apply(s0, Wait(0, Any));
    var s2 := Apply(s1, CallerStep(0));
    var s3 := Apply(s2, Stop);
    var stuck := State(false, 0, [], [Caller(Blocked(Any), {})]);
    assert s1 == State(true, 0, [], [Caller(AtCheck(Any), {})]);
    assert s2 == State(true, 0, [], [Caller(Blocked(Any), {})]);
    assert s3 == stuck;
    assert Run(s3, [], stuck);
    assert [Stop][1..] == [];
    assert Run(s2, [Stop], stuck);
    assert [CallerStep(0), Stop][1..] == [Stop];
    assert Run(s1, [CallerStep(0), Stop], stuck);
    assert [Wait(0, Any), CallerStep(0), Stop][1..] == [CallerStep(0), Stop];
  }

  // The steps of threads that are inside the pool already.
  predicate OwnStep(step: Step) {
    step.WorkerStep? || step.SpuriousWorker? || step.CallerStep? || step.SpuriousCaller?
  }

  function WorkerWeight(w: Worker): nat {
    match w.pc
    case LoopTest => 1
    case AtLock => 3
    case Sleeping => 4
    case Woken => 3
    case AfterWait => 2
    case Work => 3
    case Finishing => 2
    case _ => 0
  }

  function CallerWeight(c: Caller): nat {
    match c.pc
    case Free => 0
    case Blocked(_) => 2
    case _ => 1
  }

  // What is left to do before a stopped pool is quiet.
  function StopWork(s: State): nat {
    Sum(s.workers, WorkerWeight) + Sum(s.callers, CallerWeight)
  }

  lemma StopSection(s: State, w: nat)
    requires Shape(s) && Halted(s) && Enabled(s, WorkerStep(w))
    ensures Halted(WorkerSection(s, w)) && StopWork(WorkerSection(s, w)) < StopWork(s)
  {
    assert WorkerShape(s, w);
    SumUpdate(s.workers, WorkerWeight, w, WorkerSection(s, w).workers[w]);
  }

  lemma StopStep(s: State, step: Step)
    requires Inv(s) && Halted(s) && Enabled(s, step) && OwnStep(step)
    ensures Halted(Apply(s, step)) && StopWork(Apply(s, step)) < StopWork(s)
  {
    var t := Apply(s, step);
    match step
    case WorkerStep(w) =>
      hide WorkerSection, Halted, StopWork;
      StopSection(s, w);
    case SpuriousWorker(w) => SumUpdate(s.workers, WorkerWeight, w, t.workers[w]);
    case CallerStep(c) => SumUpdate(s.callers, CallerWeight, c, t.callers[c]);
    case SpuriousCaller(c) => assert false;
  }

  // Once a pool with workers has been stopped, every thread leaves: within StopWork steps of the
  // threads inside it all workers have ended and all callers have returned.
  lemma {:induction false} StopFreesEveryThread(s: State, steps: seq<Step>, t: State)
    requires Inv(s) && Halted(s) && Run(s, steps, t)
    requires forall i :: 0 <= i < |steps| ==> OwnStep(steps[i])
    ensures |steps| <= StopWork(s)
    ensures (forall step :: Enabled(t, step) ==> !OwnStep(step)) ==>
              && (forall w :: 0 <= w < |t.workers| ==> t.workers[w].pc in {NotSetUp, Done})
              && (forall c :: 0 <= c < |t.callers| ==> t.callers[c].pc == Free)
    decreases |steps|
  {
    if steps == [] {
      if forall step :: Enabled(t, step) ==> !OwnStep(step) {
        forall w | 0 <= w < |t.workers| ensures t.workers[w].pc in {NotSetUp, Done} {
          assert !Enabled(t, WorkerStep(w)) && !Enabled(t, SpuriousWorker(w));
        }
        forall c | 0 <= c < |t.callers| ensures t.callers[c].pc == Free {
          assert !Enabled(t, CallerStep(c)) && !Enabled(t, SpuriousCaller(c));
        }
      }
    } else {
      StepKeepsInv(s, steps[0]);
      StopStep(s, steps[0]);
      hide Apply, Inv, Halted, Enabled, StopWork;
      StopFreesEveryThread(Apply(s, steps[0]), steps[1..], t);
    }
  }
}
