/** The handshake between the worker thread and the request threads, step by step. Shared state
    changes only under the mutex; a wait gives the mutex up and takes it again after a wake-up. */
module WorkerProtocol {

  datatype Phase = Ready | Busy | Done

  /** Where the worker is. It runs InitializeInterpreter and WaitForCompletion by turns. */
  datatype WorkerPc =
    | InitLock | InitBody | InitUnlock
    | WaitLock | WaitTest | Sleeping | Relock | WaitUnlock

  /** Where a request thread is: GetInitializedInterpreter, the request itself, MarkInterpreterDone. */
  datatype RequestPc =
    | Idle
    | GetLock | GetTest | Asleep | Awake | GetUnlock
    | Holding
    | MarkLock | MarkBody | MarkUnlock

  datatype Owner = Nobody | Worker | Request(i: nat)

  /** What is done with the interpreter. */
  datatype Event = Initialize | Acquire(i: nat) | Use(i: nat) | Release(i: nat) | Finalize

  datatype State = State(phase: Phase, owner: Owner, worker: WorkerPc, requests: seq<RequestPc>, log: seq<Event>)

  predicate Initial(s: State) {
    && s.phase == Done && s.owner == Nobody && s.worker == InitLock && s.log == []
    && forall i :: 0 <= i < |s.requests| ==> s.requests[i] == Idle
  }

  /** A step of the worker, or of one request thread. A signal wakes one sleeper, if there is one;
      `wake` says which. A wake-up without a signal is possible too. */
  datatype Step = WorkerStep(wake: nat) | RequestStep(i: nat) | RequestUses(i: nat) | WorkerWakes | RequestWakes(i: nat)

  predicate SomeAsleep(s: State) {
    exists i :: 0 <= i < |s.requests| && s.requests[i] == Asleep
  }

  predicate Enabled(s: State, step: Step) {
    match step
    case WorkerStep(wake) =>
      (match s.worker
       case InitLock | WaitLock | Relock => s.owner == Nobody
       case Sleeping => false
       case InitBody => s.phase == Done && SomeAsleep(s) ==> wake < |s.requests| && s.requests[wake] == Asleep
       case _ => true)
    case RequestStep(i) =>
      i < |s.requests| &&
      (match s.requests[i]
       case GetLock | Awake | MarkLock => s.owner == Nobody
       case Asleep => false
       case _ => true)
    case RequestUses(i) => i < |s.requests| && s.requests[i] == Holding
    case WorkerWakes => s.worker == Sleeping
    case RequestWakes(i) => i < |s.requests| && s.requests[i] == Asleep
  }

  /** The body of InitializeInterpreter. */
  function InitializeInterpreter(s: State, wake: nat): State
    requires s.phase == Done && SomeAsleep(s) ==> wake < |s.requests|
  {
    if s.phase == Done then
      s.(phase := Ready, worker := InitUnlock, log := s.log + [Initialize],
         requests := if SomeAsleep(s) then s.requests[wake := Awake] else s.requests)
    else s.(worker := InitUnlock)
  }

  function WorkerAfter(s: State, wake: nat): State
    requires Enabled(s, WorkerStep(wake))
  {
    match s.worker
    case InitLock => s.(owner := Worker, worker := InitBody)
    case InitBody => InitializeInterpreter(s, wake)
    case InitUnlock => s.(owner := Nobody, worker := WaitLock)
    case WaitLock => s.(owner := Worker, worker := WaitTest)
    case WaitTest =>
      if s.phase != Done then s.(owner := Nobody, worker := Sleeping)
      else s.(worker := WaitUnlock, log := s.log + [Finalize])
    case Relock => s.(owner := Worker, worker := WaitTest)
    case WaitUnlock => s.(owner := Nobody, worker := InitLock)
  }

  function RequestAfter(s: State, i: nat): State
    requires Enabled(s, RequestStep(i))
  {
    match s.requests[i]
    case Idle => s.(requests := s.requests[i := GetLock])
    case GetLock => s.(owner := Request(i), requests := s.requests[i := GetTest])
    case GetTest =>
      if s.phase != Ready then s.(owner := Nobody, requests := s.requests[i := Asleep])
      else s.(phase := Busy, requests := s.requests[i := GetUnlock], log := s.log + [Acquire(i)])
    case Awake => s.(owner := Request(i), requests := s.requests[i := GetTest])
    case GetUnlock => s.(owner := Nobody, requests := s.requests[i := Holding])
    case Holding => s.(requests := s.requests[i := MarkLock])
    case MarkLock => s.(owner := Request(i), requests := s.requests[i := MarkBody])
    case MarkBody =>
      s.(phase := Done, requests := s.requests[i := MarkUnlock], log := s.log + [Release(i)],
         worker := if s.worker == Sleeping then Relock else s.worker)
    case MarkUnlock => s.(owner := Nobody, requests := s.requests[i := Idle])
  }

  function Next(s: State, step: Step): State
    requires Enabled(s, step)
  {
    match step
    case WorkerStep(wake) => WorkerAfter(s, wake)
    case RequestStep(i) => RequestAfter(s, i)
    case RequestUses(i) => s.(log := s.log + [Use(i)])
    case WorkerWakes => s.(worker := Relock)
    case RequestWakes(i) => s.(requests := s.requests[i := Awake])
  }

  /** `s'` is reached from `s` by these steps. */
  predicate Runs(s: State, steps: seq<Step>, s': State)
    decreases |steps|
  {
    if steps == [] then s == s' else Enabled(s, steps[0]) && Runs(Next(s, steps[0]), steps[1..], s')
  }

  /** How the life of the interpreter goes on. */
  datatype Stage = Finalized | Fresh | HeldBy(i: nat) | Released

  /** The order in which events may come: it is initialized, one request acquires it, uses it and
      releases it, and then it is finalized. */
  function Follow(stage: Stage, e: Event): (r: seq<Stage>)
    ensures |r| <= 1
  {
    match e
    case Initialize => if stage == Finalized then [Fresh] else []
    case Acquire(i) => if stage == Fresh then [HeldBy(i)] else []
    case Use(i) => if stage == HeldBy(i) then [stage] else []
    case Release(i) => if stage == HeldBy(i) then [Released] else []
    case Finalize => if stage == Released then [Finalized] else []
  }

  /** The stage after a log, or nothing if the log breaks the order. */
  function After(log: seq<Event>): (r: seq<Stage>)
    ensures |r| <= 1
  {
    if log == [] then [Finalized] else
    var before := After(log[..|log| - 1]);
    if before == [] then [] else Follow(before[0], log[|log| - 1])
  }

  /** The thread has been given the interpreter and has not given it back. */
  predicate Has(pc: RequestPc) {
    pc == GetUnlock || pc == Holding || pc == MarkLock || pc == MarkBody
  }

  predicate WorkerInside(pc: WorkerPc) {
    pc == InitBody || pc == InitUnlock || pc == WaitTest || pc == WaitUnlock
  }

  predicate RequestInside(pc: RequestPc) {
    pc == GetTest || pc == GetUnlock || pc == MarkBody || pc == MarkUnlock
  }

  predicate MutexOk(s: State) {
    && (s.owner == Worker <==> WorkerInside(s.worker)) && (s.owner.Request? ==> s.owner.i < |s.requests|)
    && forall i :: 0 <= i < |s.requests| ==> (s.owner == Request(i) <==> RequestInside(s.requests[i]))
  }

  /** The stage of the interpreter, told from where the threads are. */
  predicate StageOk(s: State, stage: Stage) {
    match stage
    case Finalized =>
      && s.phase == Done && (s.worker == InitLock || s.worker == InitBody || s.worker == WaitUnlock)
      && forall i :: 0 <= i < |s.requests| ==> !Has(s.requests[i])
    case Fresh =>
      && s.phase == Ready && s.worker != InitLock && s.worker != InitBody && s.worker != WaitUnlock
      && forall i :: 0 <= i < |s.requests| ==> !Has(s.requests[i])
    case HeldBy(j) =>
      && s.phase == Busy && s.worker != InitLock && s.worker != InitBody && s.worker != WaitUnlock
      && j < |s.requests| && forall i :: 0 <= i < |s.requests| ==> (Has(s.requests[i]) <==> i == j)
    case Released =>
      && s.phase == Done
      && (s.worker == InitUnlock || s.worker == WaitLock || s.worker == WaitTest || s.worker == Relock)
      && forall i :: 0 <= i < |s.requests| ==> !Has(s.requests[i])
  }

  /** While the interpreter is ready and some request sleeps, another one is on its way to take it. */
  predicate NobodyForgotten(s: State) {
    s.phase == Ready && SomeAsleep(s) ==>
      exists i :: 0 <= i < |s.requests| && (s.requests[i] == Awake || s.requests[i] == GetTest)
  }

  predicate Inv(s: State) {
    && MutexOk(s) && |After(s.log)| == 1 && StageOk(s, After(s.log)[0]) && NobodyForgotten(s)
  }

  lemma InitialInv(s: State)
    requires Initial(s)
    ensures Inv(s)
  {
  }

  lemma AfterOne(log: seq<Event>, e: Event)
    ensures After(log + [e]) == if After(log) == [] then [] else Follow(After(log)[0], e)
  {
    assert (log + [e])[..|log|] == log;
  }

  lemma WorkerKeeps(s: State, wake: nat)
    requires Inv(s) && Enabled(s, WorkerStep(wake))
    ensures Inv(WorkerAfter(s, wake))
  {
    hide After;
    AfterOne(s.log, Initialize);
    AfterOne(s.log, Finalize);
    var t := WorkerAfter(s, wake);
    if s.worker == InitBody && SomeAsleep(s) { assert t.requests[wake] == Awake; }
  }

  lemma RequestKeepsMutex(s: State, i: nat)
    requires MutexOk(s) && Enabled(s, RequestStep(i))
    ensures MutexOk(RequestAfter(s, i))
  {
  }

  lemma RequestKeepsStage(s: State, i: nat)
    requires MutexOk(s) && |After(s.log)| == 1 && StageOk(s, After(s.log)[0]) && Enabled(s, RequestStep(i))
    ensures var t := RequestAfter(s, i); |After(t.log)| == 1 && StageOk(t, After(t.log)[0])
  {
    hide After;
    AfterOne(s.log, Acquire(i));
    AfterOne(s.log, Release(i));
    assert Has(s.requests[i]) ==> After(s.log)[0] == HeldBy(i);
  }

  lemma RequestForgetsNobody(s: State, i: nat)
    requires NobodyForgotten(s) && Enabled(s, RequestStep(i))
    ensures NobodyForgotten(RequestAfter(s, i))
  {
    var t := RequestAfter(s, i);
    if t.phase == Ready && SomeAsleep(t) {
      var n :| 0 <= n < |t.requests| && t.requests[n] == Asleep;
      assert s.requests[n] == Asleep;
      var k :| 0 <= k < |s.requests| && (s.requests[k] == Awake || s.requests[k] == GetTest);
      assert t.requests[k] == Awake || t.requests[k] == GetTest;
    }
  }

  lemma RequestKeeps(s: State, i: nat)
    requires Inv(s) && Enabled(s, RequestStep(i))
    ensures Inv(RequestAfter(s, i))
  {
    hide After, MutexOk, StageOk, NobodyForgotten, RequestAfter;
    RequestKeepsMutex(s, i);
    RequestKeepsStage(s, i);
    RequestForgetsNobody(s, i);
  }

  lemma OtherKeeps(s: State, step: Step)
    requires Inv(s) && Enabled(s, step) && !step.WorkerStep? && !step.RequestStep?
    ensures Inv(Next(s, step))
  {
    hide After;
    if step.RequestUses? { AfterOne(s.log, Use(step.i)); }
    if step.RequestWakes? { assert Next(s, step).requests[step.i] == Awake; }
  }

  /** In every interleaving, whatever the number of threads: the order of events is kept. */
  lemma {:induction false} Safe(s: State, steps: seq<Step>, s': State)
    requires Inv(s) && Runs(s, steps, s')
    ensures Inv(s')
    decreases |steps|
  {
    hide Inv, Next;
    if steps != [] {
      StepKeeps(s, steps[0]);
      Safe(Next(s, steps[0]), steps[1..], s');
    }
  }

  lemma StepKeeps(s: State, step: Step)
    requires Inv(s) && Enabled(s, step)
    ensures Inv(Next(s, step))
  {
    hide Inv, Enabled, WorkerAfter, RequestAfter;
    match step
    case WorkerStep(wake) => WorkerKeeps(s, wake);
    case RequestStep(i) => RequestKeeps(s, i);
    case _ => OtherKeeps(s, step);
  }

  /** At most one request has the interpreter, in every state that can be reached. */
  lemma OneHolder(start: State, steps: seq<Step>, s: State, i: nat, j: nat)
    requires Initial(start) && Runs(start, steps, s)
    requires i < |s.requests| && j < |s.requests| && Has(s.requests[i]) && Has(s.requests[j])
    ensures i == j
  {
    hide Runs;
    InitialInv(start);
    Safe(start, steps, s);
  }

  /** What comes right before an event. */
  predicate InPlace(log: seq<Event>, p: nat)
    requires p < |log|
  {
    match log[p]
    case Initialize => p == 0 || log[p - 1] == Finalize
    case Acquire(_) => p > 0 && log[p - 1] == Initialize
    case Use(i) => p > 0 && (log[p - 1] == Acquire(i) || log[p - 1] == Use(i))
    case Release(i) => p > 0 && (log[p - 1] == Acquire(i) || log[p - 1] == Use(i))
    case Finalize => p > 0 && log[p - 1].Release?
  }

  function StageOf(e: Event): Stage {
    match e
    case Initialize => Fresh
    case Acquire(i) => HeldBy(i)
    case Use(i) => HeldBy(i)
    case Release(_) => Released
    case Finalize => Finalized
  }

  /** The order is kept if and only if every event has the right predecessor. */
  lemma {:induction false} OrderIsLocal(log: seq<Event>)
    ensures |After(log)| == 1 <==> forall p :: 0 <= p < |log| ==> InPlace(log, p)
    ensures log != [] && |After(log)| == 1 ==> After(log)[0] == StageOf(log[|log| - 1])
  {
    if log != [] {
      var n := |log| - 1;
      OrderIsLocal(log[..n]);
      forall p | 0 <= p < n ensures InPlace(log, p) <==> InPlace(log[..n], p) { }
      assert n > 0 ==> log[..n][n - 1] == log[n - 1];
      if |After(log[..n])| == 1 {
        assert |After(log)| == 1 <==> InPlace(log, n);
      }
    }
  }

  /** In every run: Initialize and Finalize alternate, every request that acquires the interpreter
      gets it right after an Initialize, and only its holder acts on it until it is released. */
  lemma EveryRun(start: State, steps: seq<Step>, s: State, p: nat)
    requires Initial(start) && Runs(start, steps, s) && p < |s.log|
    ensures InPlace(s.log, p)
  {
    hide Runs, InPlace;
    InitialInv(start);
    Safe(start, steps, s);
    OrderIsLocal(s.log);
  }

  /** No deadlock: while a request is under way, a thread can go on without a wake-up out of the
      blue and without a new request. */
  lemma CanGoOn(start: State, steps: seq<Step>, s: State, j: nat) returns (step: Step)
    requires Initial(start) && Runs(start, steps, s) && j < |s.requests| && s.requests[j] != Idle
    ensures Enabled(s, step)
    ensures step.WorkerStep? || (step.RequestStep? && s.requests[step.i] != Idle)
  {
    hide Runs;
    InitialInv(start);
    Safe(start, steps, s);
    step := ActiveThread(s, j);
  }

  lemma ActiveThread(s: State, j: nat) returns (step: Step)
    requires Inv(s) && j < |s.requests| && s.requests[j] != Idle
    ensures Enabled(s, step)
    ensures step.WorkerStep? || (step.RequestStep? && s.requests[step.i] != Idle)
  {
    hide After;
    var wake := 0;
    if SomeAsleep(s) { wake :| 0 <= wake < |s.requests| && s.requests[wake] == Asleep; }
    if s.owner == Worker || (s.owner == Nobody && s.worker != Sleeping) {
      step := WorkerStep(wake);
    } else if s.owner.Request? {
      step := RequestStep(s.owner.i);
    } else if s.phase == Busy {
      step := RequestStep(After(s.log)[0].i);
    } else if s.requests[j] != Asleep {
      step := RequestStep(j);
    } else {
      var i :| 0 <= i < |s.requests| && (s.requests[i] == Awake || s.requests[i] == GetTest);
      step := RequestStep(i);
    }
  }

  /** A step of a thread that is under way: no new request, no wake-up without a signal. The uses of
      the interpreter by its holder are steps of their own, which change nothing for the threads. */
  predicate Quiet(s: State, step: Step) {
    step.WorkerStep? || (step.RequestStep? && step.i < |s.requests| && s.requests[step.i] != Idle)
  }

  predicate QuietRun(s: State, steps: seq<Step>, s': State)
    decreases |steps|
  {
    if steps == [] then s == s'
    else Quiet(s, steps[0]) && Enabled(s, steps[0]) && QuietRun(Next(s, steps[0]), steps[1..], s')
  }

  /** How far a request is from its end. A release pays for a whole round of the worker. */
  function RequestLeft(pc: RequestPc): nat {
    match pc
    case Idle => 0
    case MarkUnlock => 1
    case MarkBody => 15
    case MarkLock => 16
    case Holding => 17
    case GetUnlock => 18
    case Asleep => 19
    case GetTest => 20
    case GetLock => 21
    case Awake => 21
  }

  function AllLeft(requests: seq<RequestPc>): nat {
    if requests == [] then 0 else RequestLeft(requests[0]) + AllLeft(requests[1..])
  }

  /** How far the worker is from its sleep. An initialization pays for the sleeper that it wakes. */
  function WorkerLeft(phase: Phase, pc: WorkerPc): nat {
    match pc
    case InitUnlock => if phase == Done then 11 else 3
    case WaitLock => if phase == Done then 10 else 2
    case Relock => if phase == Done then 10 else 2
    case WaitTest => if phase == Done then 9 else 1
    case WaitUnlock => 8
    case InitLock => 7
    case InitBody => 6
    case Sleeping => 0
  }

  function Left(s: State): nat {
    WorkerLeft(s.phase, s.worker) + AllLeft(s.requests)
  }

  lemma {:induction false} LeftOf(requests: seq<RequestPc>, i: nat, pc: RequestPc)
    requires i < |requests|
    ensures AllLeft(requests[i := pc]) + RequestLeft(requests[i]) == AllLeft(requests) + RequestLeft(pc)
  {
    var after := requests[i := pc];
    if i == 0 {
      assert after[1..] == requests[1..];
    } else {
      assert after[1..] == requests[1..][i - 1 := pc];
      LeftOf(requests[1..], i - 1, pc);
    }
  }

  lemma {:induction false} LeftBound(requests: seq<RequestPc>)
    ensures AllLeft(requests) <= 21 * |requests|
  {
    if requests != [] { LeftBound(requests[1..]); }
  }

  /** Every step of a thread that is under way brings the whole nearer to its end. */
  lemma StepNearer(s: State, step: Step)
    requires Inv(s) && Enabled(s, step) && Quiet(s, step)
    ensures Left(Next(s, step)) < Left(s)
  {
    hide After, AllLeft;
    var t := Next(s, step);
    match step
    case WorkerStep(wake) =>
      if s.worker == InitBody && s.phase == Done && SomeAsleep(s) { LeftOf(s.requests, wake, Awake); }
    case RequestStep(i) =>
      LeftOf(s.requests, i, t.requests[i]);
      assert t.requests == s.requests[i := t.requests[i]];
  }

  /** A request that has not released the interpreter, if it ever gets it. */
  predicate Unserved(pc: RequestPc) {
    pc != Idle && pc != MarkUnlock
  }

  /** A request that waits for the interpreter. */
  predicate Waiting(pc: RequestPc) {
    pc == GetLock || pc == GetTest || pc == Asleep || pc == Awake
  }

  lemma {:induction false} RunNearer(s: State, quiet: seq<Step>, s': State)
    requires Inv(s) && QuietRun(s, quiet, s')
    ensures Inv(s') && |quiet| + Left(s') <= Left(s)
    decreases |quiet|
  {
    hide Inv, Enabled, Quiet, Next, Left;
    if quiet != [] {
      StepKeeps(s, quiet[0]);
      StepNearer(s, quiet[0]);
      RunNearer(Next(s, quiet[0]), quiet[1..], s');
    }
  }

  /** Over a run the log has grown, and request `i` has been served only by its release. */
  predicate Serves(s: State, s': State, i: nat)
    requires i < |s.requests|
  {
    && |s'.requests| == |s.requests| && s.log <= s'.log
    && (Unserved(s.requests[i]) && !Unserved(s'.requests[i]) ==> Release(i) in s'.log[|s.log|..])
    && (!Unserved(s.requests[i]) ==> !Unserved(s'.requests[i]))
    && (Waiting(s.requests[i]) && !Waiting(s'.requests[i]) ==> Acquire(i) in s'.log[|s.log|..])
    && (!Waiting(s.requests[i]) ==> !Waiting(s'.requests[i]))
  }

  lemma StepServes(s: State, step: Step, i: nat)
    requires Enabled(s, step) && Quiet(s, step) && i < |s.requests|
    ensures Serves(s, Next(s, step), i)
  {
  }

  lemma {:induction false} RunServes(s: State, quiet: seq<Step>, s': State, i: nat)
    requires QuietRun(s, quiet, s') && i < |s.requests|
    ensures Serves(s, s', i)
    decreases |quiet|
  {
    hide Enabled, Quiet, Next;
    if quiet != [] {
      var t := Next(s, quiet[0]);
      StepServes(s, quiet[0], i);
      RunServes(t, quiet[1..], s', i);
      assert s'.log[|s.log|..] == t.log[|s.log|..] + s'.log[|t.log|..];
    }
  }

  /** No thread that is under way can go on. */
  ghost predicate Stuck(s: State) {
    forall step :: Quiet(s, step) ==> !Enabled(s, step)
  }

  /** No request waits for ever. From every state that can be reached, the threads that are under way
      make at most 21 steps for each request thread and 11 more. When none of them can go on, every
      request has been given the interpreter, has released it and is done. */
  lemma EveryRequestServed(start: State, steps: seq<Step>, s: State, quiet: seq<Step>, s': State)
    requires Initial(start) && Runs(start, steps, s) && QuietRun(s, quiet, s')
    ensures |quiet| <= 21 * |s.requests| + 11 && |s'.requests| == |s.requests| && s.log <= s'.log
    ensures Stuck(s') ==> forall i :: 0 <= i < |s.requests| ==> s'.requests[i] == Idle
    ensures Stuck(s') ==> forall i :: 0 <= i < |s.requests| && Unserved(s.requests[i]) ==>
                            Release(i) in s'.log[|s.log|..]
    ensures Stuck(s') ==> forall i :: 0 <= i < |s.requests| && Waiting(s.requests[i]) ==>
                            Acquire(i) in s'.log[|s.log|..]
  {
    hide Runs, Inv, Enabled, Quiet, Next, QuietRun;
    InitialInv(start);
    Safe(start, steps, s);
    RunNearer(s, quiet, s');
    LeftBound(s.requests);
    SameThreads(s, quiet, s');
    if Stuck(s') {
      forall i | 0 <= i < |s.requests|
        ensures s'.requests[i] == Idle && (Unserved(s.requests[i]) ==> Release(i) in s'.log[|s.log|..])
        ensures Waiting(s.requests[i]) ==> Acquire(i) in s'.log[|s.log|..]
      {
        RunServes(s, quiet, s', i);
        if s'.requests[i] != Idle {
          var step := ActiveThread(s', i);
          GoesOn(s', step);
        }
      }
    }
  }

  /** Every run of threads that are under way can be prolonged until none of them can go on. */
  lemma {:induction false} RunToTheEnd(s: State) returns (quiet: seq<Step>, s': State)
    requires Inv(s)
    ensures QuietRun(s, quiet, s') && Stuck(s')
    decreases Left(s)
  {
    hide Inv, Enabled, Quiet, Next, Left;
    if Stuck(s) {
      quiet, s' := [], s;
    } else {
      var step :| Quiet(s, step) && Enabled(s, step);
      StepKeeps(s, step);
      StepNearer(s, step);
      var rest;
      rest, s' := RunToTheEnd(Next(s, step));
      quiet := [step] + rest;
    }
  }

  /** An idle request thread can always begin. Then it waits for the interpreter, and there is a run
      in which it gets it and releases it again. */
  lemma EveryRequestCanBegin(start: State, steps: seq<Step>, s: State, i: nat) returns (quiet: seq<Step>, s': State)
    requires Initial(start) && Runs(start, steps, s) && i < |s.requests| && s.requests[i] == Idle
    ensures Enabled(s, RequestStep(i)) && Waiting(Next(s, RequestStep(i)).requests[i])
    ensures QuietRun(Next(s, RequestStep(i)), quiet, s')
    ensures |s.log| <= |s'.log| && Acquire(i) in s'.log[|s.log|..] && Release(i) in s'.log[|s.log|..]
  {
    var begun := Next(s, RequestStep(i));
    hide Runs, Inv, QuietRun, Stuck;
    InitialInv(start);
    Safe(start, steps, s);
    StepKeeps(s, RequestStep(i));
    quiet, s' := RunToTheEnd(begun);
    OneStepMore(start, steps, s, RequestStep(i));
    EveryRequestServed(start, steps + [RequestStep(i)], begun, quiet, s');
  }

  lemma {:induction false} OneStepMore(start: State, steps: seq<Step>, s: State, step: Step)
    requires Runs(start, steps, s) && Enabled(s, step)
    ensures Runs(start, steps + [step], Next(s, step))
    decreases |steps|
  {
    hide Enabled, Next;
    if steps == [] {
      assert steps + [step] == [step];
    } else {
      assert (steps + [step])[1..] == steps[1..] + [step];
      OneStepMore(Next(start, steps[0]), steps[1..], s, step);
    }
  }

  lemma {:induction false} SameThreads(s: State, quiet: seq<Step>, s': State)
    requires QuietRun(s, quiet, s')
    ensures |s'.requests| == |s.requests| && s.log <= s'.log
    decreases |quiet|
  {
    if quiet != [] { SameThreads(Next(s, quiet[0]), quiet[1..], s'); }
  }

  lemma GoesOn(s: State, step: Step)
    requires Enabled(s, step) && (step.WorkerStep? || (step.RequestStep? && s.requests[step.i] != Idle))
    ensures !Stuck(s)
  {
    assert Quiet(s, step);
  }
}
