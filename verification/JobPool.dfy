/** The pool that runs HTTP requests: the main thread routes jobs to workers, each worker answers
    them in batches, and the main thread makes the callbacks in batches of its own. */
module JobPool {
  const WORKERS := 5        // kWorkerNum

  /** key is the i32[2] of the call data, which picks the worker. */
  datatype Job = Job(id: int, key: int)

  /** Where Svc is: before its loop, testing stop_, inside HangUp, about to swap the lists, dealing
      with its batch, or past the loop. */
  datatype Phase = Starting | Testing | HangingUp | Swapping | Dealing | Ended

  datatype Worker = Worker(phase: Phase, jobs: seq<Job>, batch: seq<Job>, stop: bool)

  /** requested and called are history: every RequestUrl and every callback, in order. */
  datatype Pool = Pool(workers: seq<Worker>, jobs: seq<Job>, batch: seq<Job>, processing: bool,
                       startCount: int, stopCount: int, requested: seq<Job>, called: seq<Job>)

  datatype Action =
    | Start(i: nat)
    | TestStop(i: nat)
    | HangUp(i: nat)
    | Swap(i: nat)
    | Deal(i: nat)
    | NextRound(i: nat)
    | Request(job: Job)
    | WakeStop(i: nat)
    | BeginProcessing
    | CallBack
    | EndProcessing

  /** key % kWorkerNum as C++ takes it: the sign follows the key. */
  function Route(key: int): (r: int)
    ensures -WORKERS < r < WORKERS
  {
    if key >= 0 then key % WORKERS else -((-key) % WORKERS)
  }

  /** The key's distance from 0 beyond a multiple of the five workers decides, with the sign of the key. */
  lemma RouteIsRemainder(key: int, times: nat, r: nat)
    requires r < 5
    ensures Route(5 * times + r) == r && Route(-(5 * times + r)) + r == 0
  {
  }

  /** The keys that pick a worker; any other indexes the array of workers below its start. */
  lemma RouteIsIndex(key: int)
    ensures 0 <= Route(key) <==> key >= 0 || key % WORKERS == 0
  {
    assert key == WORKERS * (key / WORKERS) + key % WORKERS;
    assert -key == WORKERS * (-key / WORKERS) + -key % WORKERS;
  }

  function Created(): Pool {
    var w := Worker(Starting, [], [], false);
    Pool([w, w, w, w, w], [], [], false, WORKERS, WORKERS, [], [])
  }

  predicate HasWorker(p: Pool, i: nat) {
    i < |p.workers|
  }

  /** When an action can happen. HangUp waits for a job and never looks at stop. */
  predicate Enabled(p: Pool, act: Action) {
    match act
    case Start(i) => HasWorker(p, i) && p.workers[i].phase.Starting?
    case TestStop(i) => HasWorker(p, i) && p.workers[i].phase.Testing?
    case HangUp(i) => HasWorker(p, i) && p.workers[i].phase.HangingUp? && p.workers[i].jobs != []
    case Swap(i) => HasWorker(p, i) && p.workers[i].phase.Swapping?
    case Deal(i) => HasWorker(p, i) && p.workers[i].phase.Dealing? && p.workers[i].batch != []
    case NextRound(i) => HasWorker(p, i) && p.workers[i].phase.Dealing? && p.workers[i].batch == []
    case Request(job) => 0 <= Route(job.key) < |p.workers|
    case WakeStop(i) => HasWorker(p, i)
    case BeginProcessing => !p.processing
    case CallBack => p.processing && p.batch != []
    case EndProcessing => p.processing && p.batch == []
  }

  function SetWorker(p: Pool, i: nat, w: Worker): Pool
    requires HasWorker(p, i)
  {
    p.(workers := p.workers[i := w])
  }

  function Step(p: Pool, act: Action): Pool
    requires Enabled(p, act)
  {
    match act
    case Start(i) => SetWorker(p, i, p.workers[i].(phase := Testing)).(startCount := p.startCount - 1)
    case TestStop(i) =>
      if p.workers[i].stop then SetWorker(p, i, p.workers[i].(phase := Ended)).(stopCount := p.stopCount - 1)
      else SetWorker(p, i, p.workers[i].(phase := HangingUp))
    case HangUp(i) => SetWorker(p, i, p.workers[i].(phase := Swapping))
    case Swap(i) => SetWorker(p, i, p.workers[i].(phase := Dealing, batch := p.workers[i].jobs, jobs := []))
    case Deal(i) =>
      var w := p.workers[i];
      SetWorker(p, i, w.(batch := w.batch[1..])).(jobs := p.jobs + [w.batch[0]])
    case NextRound(i) => SetWorker(p, i, p.workers[i].(phase := Testing))
    case Request(job) =>
      var i := Route(job.key);
      SetWorker(p, i, p.workers[i].(jobs := p.workers[i].jobs + [job])).(requested := p.requested + [job])
    case WakeStop(i) => SetWorker(p, i, p.workers[i].(stop := true))
    case BeginProcessing => p.(processing := true, batch := p.jobs, jobs := [])
    case CallBack => p.(batch := p.batch[1..], called := p.called + [p.batch[0]])
    case EndProcessing => p.(processing := false)
  }

  // ----- Nothing is lost, repeated or reordered -----

  /** The jobs that go to worker i, in order. */
  function RoutedTo(jobs: seq<Job>, i: int): seq<Job> {
    if jobs == [] then []
    else (if Route(jobs[0].key) == i then [jobs[0]] else []) + RoutedTo(jobs[1..], i)
  }

  lemma Associate(a: seq<Job>, b: seq<Job>, c: seq<Job>)
    ensures (a + b) + c == a + (b + c)
  {
  }

  lemma {:induction false} RoutedToConcat(a: seq<Job>, b: seq<Job>, i: int)
    ensures RoutedTo(a + b, i) == RoutedTo(a, i) + RoutedTo(b, i)
  {
    if a == [] {
      assert a + b == b;
    } else {
      assert (a + b)[1..] == a[1..] + b;
      RoutedToConcat(a[1..], b, i);
      Associate(if Route(a[0].key) == i then [a[0]] else [], RoutedTo(a[1..], i), RoutedTo(b, i));
    }
  }

  lemma RoutedToOne(job: Job, i: int)
    ensures RoutedTo([job], i) == if Route(job.key) == i then [job] else []
  {
  }

  /** The way of the jobs of worker i, the oldest first: called back, in the master's batch, in the
      master's list, in the worker's batch, in the worker's list. */
  function Pipeline(p: Pool, i: nat): seq<Job>
    requires HasWorker(p, i)
  {
    RoutedTo(p.called, i) + RoutedTo(p.batch, i) + RoutedTo(p.jobs, i) + p.workers[i].batch + p.workers[i].jobs
  }

  ghost predicate QueuesOk(p: Pool) {
    forall i :: 0 <= i < |p.workers| ==> QueueOk(p, i)
  }

  ghost predicate QueueOk(p: Pool, i: nat)
    requires HasWorker(p, i)
  {
    && Pipeline(p, i) == RoutedTo(p.requested, i)
    && (forall k :: 0 <= k < |p.workers[i].batch| ==> Route(p.workers[i].batch[k].key) == i)
    && (forall k :: 0 <= k < |p.workers[i].jobs| ==> Route(p.workers[i].jobs[k].key) == i)
    && (p.workers[i].phase.Dealing? || p.workers[i].batch == [])
  }

  /** How many are still starting, or, for the other latch, how many have not ended. */
  function Count(workers: seq<Worker>, starting: bool): nat {
    if workers == [] then 0
    else (if (if starting then workers[0].phase.Starting? else !workers[0].phase.Ended?) then 1 else 0)
         + Count(workers[1..], starting)
  }

  /** Each latch counts the workers that still have to pass it. */
  ghost predicate LatchesOk(p: Pool) {
    p.startCount == Count(p.workers, true) && p.stopCount == Count(p.workers, false)
  }

  ghost predicate Inv(p: Pool) {
    |p.workers| == WORKERS && QueuesOk(p) && LatchesOk(p) && (p.processing || p.batch == [])
  }

  lemma {:induction false} CountUpdate(workers: seq<Worker>, i: nat, w: Worker, starting: bool)
    requires i < |workers|
    ensures Count(workers[i := w], starting) - Count([w], starting) == Count(workers, starting) - Count([workers[i]], starting)
  {
    if i == 0 {
      assert workers[i := w][1..] == workers[1..];
    } else {
      assert workers[i := w][1..] == workers[1..][i - 1 := w];
      CountUpdate(workers[1..], i - 1, w, starting);
    }
  }

  lemma {:induction false} NoneCounted(workers: seq<Worker>, starting: bool)
    ensures Count(workers, starting) == 0 <==>
              forall i :: 0 <= i < |workers| ==> if starting then !workers[i].phase.Starting? else workers[i].phase.Ended?
  {
    if workers != [] {
      NoneCounted(workers[1..], starting);
      assert forall i :: 0 < i < |workers| ==> workers[i] == workers[1..][i - 1];
    }
  }

  lemma StepKeepsLatches(p: Pool, act: Action)
    requires Inv(p) && Enabled(p, act)
    ensures |Step(p, act).workers| == WORKERS && LatchesOk(Step(p, act))
  {
    if act.Request? || act.BeginProcessing? || act.CallBack? || act.EndProcessing? {
      if act.Request? {
        SetKeepsCounts(p.workers, Route(act.job.key), Step(p, act).workers[Route(act.job.key)]);
      }
    } else {
      SetKeepsCounts(p.workers, act.i, Step(p, act).workers[act.i]);
    }
  }

  lemma SetKeepsCounts(workers: seq<Worker>, i: nat, w: Worker)
    requires i < |workers|
    ensures Count(workers[i := w], true) - (if w.phase.Starting? then 1 else 0)
            == Count(workers, true) - (if workers[i].phase.Starting? then 1 else 0)
    ensures Count(workers[i := w], false) - (if w.phase.Ended? then 0 else 1)
            == Count(workers, false) - (if workers[i].phase.Ended? then 0 else 1)
  {
    CountUpdate(workers, i, w, true);
    CountUpdate(workers, i, w, false);
  }

  lemma Regroup(a: seq<Job>, b: seq<Job>, x: seq<Job>, y: seq<Job>, c: seq<Job>)
    ensures a + (b + x) + y + c == a + b + (x + y) + c
  {
  }

  lemma DealMoves(p: Pool, i: nat, k: nat)
    requires Inv(p) && Enabled(p, Deal(i)) && HasWorker(p, k)
    ensures QueueOk(Step(p, Deal(i)), k)
  {
    assert QueueOk(p, k) && QueueOk(p, i);
    var job := p.workers[i].batch[0];
    RoutedToConcat(p.jobs, [job], k);
    RoutedToOne(job, k);
    var done := RoutedTo(p.called, k) + RoutedTo(p.batch, k);
    if k == i {
      assert p.workers[i].batch == [job] + p.workers[i].batch[1..];
      Regroup(done, RoutedTo(p.jobs, k), [job], p.workers[i].batch[1..], p.workers[i].jobs);
    } else {
      assert RoutedTo(p.jobs + [job], k) == RoutedTo(p.jobs, k);
    }
  }

  lemma RequestJoins(p: Pool, job: Job, k: nat)
    requires Enabled(p, Request(job)) && HasWorker(p, k)
    ensures Pipeline(Step(p, Request(job)), k) == Pipeline(p, k) + if Route(job.key) == k then [job] else []
  {
    var w := p.workers[k];
    var before := RoutedTo(p.called, k) + RoutedTo(p.batch, k) + RoutedTo(p.jobs, k) + w.batch;
    if Route(job.key) == k {
      Associate(before, w.jobs, [job]);
    }
  }

  lemma RequestMoves(p: Pool, job: Job, k: nat)
    requires Enabled(p, Request(job)) && HasWorker(p, k) && QueueOk(p, k)
    ensures QueueOk(Step(p, Request(job)), k)
  {
    RoutedToConcat(p.requested, [job], k);
    RoutedToOne(job, k);
    RequestJoins(p, job, k);
  }

  lemma CallBackMoves(p: Pool, k: nat)
    requires Enabled(p, CallBack) && HasWorker(p, k)
    ensures Pipeline(Step(p, CallBack), k) == Pipeline(p, k)
  {
    var job, c := p.batch[0], RoutedTo(p.called, k);
    RoutedToConcat(p.called, [job], k);
    RoutedToConcat([job], p.batch[1..], k);
    assert [job] + p.batch[1..] == p.batch;
    Associate(c, RoutedTo([job], k), RoutedTo(p.batch[1..], k));
  }

  lemma ProcessingMoves(p: Pool, act: Action, k: nat)
    requires Inv(p) && Enabled(p, act) && (act.BeginProcessing? || act.CallBack? || act.EndProcessing?) && HasWorker(p, k)
    ensures Pipeline(Step(p, act), k) == Pipeline(p, k)
  {
    if act.CallBack? {
      CallBackMoves(p, k);
    } else if act.BeginProcessing? {
      assert RoutedTo([], k) == [];
      assert RoutedTo(p.called, k) + [] + RoutedTo(p.jobs, k) == RoutedTo(p.called, k) + RoutedTo(p.jobs, k) + [];
    }
  }

  lemma SwapMoves(p: Pool, i: nat)
    requires Enabled(p, Swap(i)) && QueueOk(p, i)
    ensures QueueOk(Step(p, Swap(i)), i)
  {
    var w := p.workers[i];
    var done := RoutedTo(p.called, i) + RoutedTo(p.batch, i) + RoutedTo(p.jobs, i);
    assert w.batch == [];
    assert done + [] == done && (done + w.jobs) + [] == done + w.jobs;
  }

  lemma SameQueue(p: Pool, p': Pool, k: nat)
    requires HasWorker(p, k) && HasWorker(p', k) && QueueOk(p, k)
    requires p'.jobs == p.jobs && p'.batch == p.batch && p'.called == p.called && p'.requested == p.requested
    requires p'.workers[k].jobs == p.workers[k].jobs && p'.workers[k].batch == p.workers[k].batch
    requires p'.workers[k].phase.Dealing? || p.workers[k].batch == []
    ensures QueueOk(p', k)
  {
  }

  /** The steps inside one worker leave its pipeline as it is. */
  lemma WorkerMoves(p: Pool, act: Action, k: nat)
    requires Enabled(p, act) && HasWorker(p, k) && QueueOk(p, k)
    requires act.Start? || act.TestStop? || act.HangUp? || act.Swap? || act.NextRound? || act.WakeStop?
    ensures QueueOk(Step(p, act), k)
  {
    if act.Swap? && act.i == k {
      SwapMoves(p, k);
    } else {
      SameQueue(p, Step(p, act), k);
    }
  }

  lemma StepKeepsQueue(p: Pool, act: Action, k: nat)
    requires Inv(p) && Enabled(p, act) && HasWorker(p, k)
    ensures HasWorker(Step(p, act), k) && QueueOk(Step(p, act), k)
  {
    assert QueueOk(p, k);
    if act.Deal? {
      DealMoves(p, act.i, k);
    } else if act.Request? {
      RequestMoves(p, act.job, k);
    } else if act.BeginProcessing? || act.CallBack? || act.EndProcessing? {
      ProcessingMoves(p, act, k);
    } else {
      WorkerMoves(p, act, k);
    }
  }

  lemma StepKeepsInv(p: Pool, act: Action)
    requires Inv(p) && Enabled(p, act)
    ensures Inv(Step(p, act))
  {
    StepKeepsLatches(p, act);
    forall k | 0 <= k < |p.workers|
      ensures QueueOk(Step(p, act), k)
    {
      StepKeepsQueue(p, act, k);
    }
  }

  // ----- Whole runs -----

  ghost predicate Allowed(p: Pool, acts: seq<Action>)
    decreases |acts|
  {
    acts == [] || (Enabled(p, acts[0]) && Allowed(Step(p, acts[0]), acts[1..]))
  }

  ghost function Run(p: Pool, acts: seq<Action>): Pool
    requires Allowed(p, acts)
    decreases |acts|
  {
    if acts == [] then p else Run(Step(p, acts[0]), acts[1..])
  }

  lemma {:induction false} RunKeepsInv(p: Pool, acts: seq<Action>)
    requires Inv(p) && Allowed(p, acts)
    ensures Inv(Run(p, acts))
    decreases |acts|
  {
    if acts != [] {
      StepKeepsInv(p, acts[0]);
      RunKeepsInv(Step(p, acts[0]), acts[1..]);
    }
  }

  lemma CountCons(w: Worker, rest: seq<Worker>)
    requires w.phase.Starting?
    ensures Count([w] + rest, true) == 1 + Count(rest, true) && Count([w] + rest, false) == 1 + Count(rest, false)
  {
    assert ([w] + rest)[1..] == rest;
  }

  lemma CreatedIsInv()
    ensures Inv(Created())
  {
    var w := Worker(Starting, [], [], false);
    var all := Created().workers;
    assert all == [w] + ([w] + ([w] + ([w] + [w])));
    CountCons(w, [w] + ([w] + ([w] + [w])));
    CountCons(w, [w] + ([w] + [w]));
    CountCons(w, [w] + [w]);
    CountCons(w, [w]);
    CountCons(w, []);
    forall i | 0 <= i < |all|
      ensures QueueOk(Created(), i)
    {
    }
  }

  /** Whatever the interleaving: each worker's jobs are called back in the order they were requested,
      and those not yet called back wait, in order, in the four places after it. */
  lemma CallbacksFollowRequests(acts: seq<Action>, i: nat)
    requires Allowed(Created(), acts) && i < WORKERS
    ensures var p := Run(Created(), acts); HasWorker(p, i) && Pipeline(p, i) == RoutedTo(p.requested, i)
    ensures var p := Run(Created(), acts); RoutedTo(p.called, i) <= RoutedTo(p.requested, i)
  {
    CreatedIsInv();
    RunKeepsInv(Created(), acts);
    assert QueueOk(Run(Created(), acts), i);
  }

  /** Once the queues are empty every request of a worker has had its one callback. */
  lemma EmptyQueuesMeanAllCalled(acts: seq<Action>, i: nat)
    requires Allowed(Created(), acts) && i < WORKERS && HasWorker(Run(Created(), acts), i)
    ensures var p := Run(Created(), acts);
            RoutedTo(p.called, i) == RoutedTo(p.requested, i)
            <==> RoutedTo(p.batch, i) == [] && RoutedTo(p.jobs, i) == [] && p.workers[i].batch == [] && p.workers[i].jobs == []
  {
    CallbacksFollowRequests(acts, i);
  }

  /** Wait returns when the count is no longer positive: then every worker has passed its latch. */
  lemma LatchesReleaseInTime(acts: seq<Action>)
    requires Allowed(Created(), acts)
    ensures var p := Run(Created(), acts); p.startCount <= 0 <==> forall i :: 0 <= i < |p.workers| ==> !p.workers[i].phase.Starting?
    ensures var p := Run(Created(), acts); p.stopCount <= 0 <==> forall i :: 0 <= i < |p.workers| ==> p.workers[i].phase.Ended?
  {
    CreatedIsInv();
    RunKeepsInv(Created(), acts);
    NoneCounted(Run(Created(), acts).workers, true);
    NoneCounted(Run(Created(), acts).workers, false);
  }

  /** A worker that hangs up with no job does not hear WakeStop: only another request moves it. */
  lemma {:induction false} HangingWorkerMissesStop(p: Pool, acts: seq<Action>, i: nat)
    requires Allowed(p, acts) && HasWorker(p, i) && p.workers[i].phase.HangingUp? && p.workers[i].jobs == []
    requires forall k :: 0 <= k < |acts| && acts[k].Request? ==> Route(acts[k].job.key) != i
    ensures HasWorker(Run(p, acts), i) && Run(p, acts).workers[i].phase.HangingUp?
    decreases |acts|
  {
    if acts != [] {
      assert !(acts[0].Request? && Route(acts[0].job.key) == i);
      HangingWorkerMissesStop(Step(p, acts[0]), acts[1..], i);
    }
  }

  /** The worker's own steps: everything it does between Start and its end. */
  predicate IsOwn(act: Action, i: nat) {
    act in {Start(i), TestStop(i), HangUp(i), Swap(i), Deal(i), NextRound(i)}
  }

  /** By its own steps alone the worker can come to its end. */
  ghost predicate CanEnd(p: Pool, i: nat) {
    exists acts :: EndsBy(p, acts, i)
  }

  ghost predicate EndsBy(p: Pool, acts: seq<Action>, i: nat) {
    && (forall k :: 0 <= k < |acts| ==> IsOwn(acts[k], i))
    && Allowed(p, acts) && HasWorker(Run(p, acts), i) && Run(p, acts).workers[i].phase.Ended?
  }

  lemma EndsAfter(p: Pool, act: Action, i: nat)
    requires HasWorker(p, i) && IsOwn(act, i) && Enabled(p, act) && CanEnd(Step(p, act), i)
    ensures CanEnd(p, i)
  {
    var acts :| EndsBy(Step(p, act), acts, i);
    assert ([act] + acts)[1..] == acts;
    assert EndsBy(p, [act] + acts, i);
  }

  /** From its test of the flag a worker that is to stop ends. */
  lemma TestEnds(p: Pool, i: nat)
    requires HasWorker(p, i) && p.workers[i].stop && p.workers[i].phase.Testing?
    ensures CanEnd(p, i)
  {
    assert EndsBy(Step(p, TestStop(i)), [], i);
    EndsAfter(p, TestStop(i), i);
  }

  /** While it deals, it first deals what is left of its batch. */
  lemma {:induction false} DealingEnds(p: Pool, i: nat)
    requires HasWorker(p, i) && p.workers[i].stop && p.workers[i].phase.Dealing?
    ensures CanEnd(p, i)
    decreases |p.workers[i].batch|
  {
    if p.workers[i].batch == [] {
      TestEnds(Step(p, NextRound(i)), i);
      EndsAfter(p, NextRound(i), i);
    } else {
      DealingEnds(Step(p, Deal(i)), i);
      EndsAfter(p, Deal(i), i);
    }
  }

  lemma SwappingEnds(p: Pool, i: nat)
    requires HasWorker(p, i) && p.workers[i].stop && p.workers[i].phase.Swapping?
    ensures CanEnd(p, i)
  {
    DealingEnds(Step(p, Swap(i)), i);
    EndsAfter(p, Swap(i), i);
  }

  /** When a stop is heard: a worker whose flag is set comes to its end by itself exactly when it does
      not hang up with no job. */
  lemma StopIsHeardIff(p: Pool, i: nat)
    requires HasWorker(p, i) && p.workers[i].stop
    ensures CanEnd(p, i) <==> !(p.workers[i].phase.HangingUp? && p.workers[i].jobs == [])
  {
    match p.workers[i].phase
    case Starting =>
      TestEnds(Step(p, Start(i)), i);
      EndsAfter(p, Start(i), i);
    case Testing => TestEnds(p, i);
    case HangingUp =>
      if p.workers[i].jobs != [] {
        SwappingEnds(Step(p, HangUp(i)), i);
        EndsAfter(p, HangUp(i), i);
      } else if CanEnd(p, i) {
        var acts :| EndsBy(p, acts, i);
        HangingWorkerMissesStop(p, acts, i);
      }
    case Swapping => SwappingEnds(p, i);
    case Dealing => DealingEnds(p, i);
    case Ended => assert EndsBy(p, [], i);
  }

  // ----- The operations in memory -----

  class CountDownLatch {
    var count: int

    constructor (count: int)
      ensures this.count == count
    {
      this.count := count;
    }

    /** wake tells that the waiting threads are notified. */
    method CountDown() returns (wake: bool)
      modifies this
      ensures count == old(count) - 1 && (wake <==> count == 0)
    {
      count := count - 1;
      wake := count == 0;
    }
  }

  class HttpWorker {
    var jobs: seq<Job>
    var stop: bool

    constructor ()
      ensures jobs == [] && !stop
    {
      jobs, stop := [], false;
    }

    method PushJob(job: Job)
      modifies this`jobs
      ensures jobs == old(jobs) + [job]
    {
      jobs := jobs + [job];
    }

    /** The swap under the lock. */
    method TakeBatch() returns (batch: seq<Job>)
      modifies this`jobs
      ensures batch == old(jobs) && jobs == []
    {
      batch, jobs := jobs, [];
    }
  }

  class HttpMaster {
    const workers: seq<HttpWorker>
    const startCountDown: CountDownLatch
    const stopCountDown: CountDownLatch
    var jobs: seq<Job>

    ghost predicate Valid() {
      |workers| == WORKERS && forall i, j :: 0 <= i < j < |workers| ==> workers[i] != workers[j]
    }

    constructor ()
      ensures Valid() && jobs == [] && fresh(workers)
      ensures forall i :: 0 <= i < |workers| ==> workers[i].jobs == [] && !workers[i].stop
      ensures fresh(startCountDown) && fresh(stopCountDown) && startCountDown != stopCountDown
      ensures startCountDown.count == WORKERS && stopCountDown.count == WORKERS
    {
      startCountDown := new CountDownLatch(WORKERS);
      stopCountDown := new CountDownLatch(WORKERS);
      var w0 := new HttpWorker();
      var w1 := new HttpWorker();
      var w2 := new HttpWorker();
      var w3 := new HttpWorker();
      var w4 := new HttpWorker();
      workers, jobs := [w0, w1, w2, w3, w4], [];
    }

    /** Request: the job goes to the end of the list its key picks, and to no other. */
    method RequestUrl(job: Job)
      requires Valid() && 0 <= Route(job.key)
      modifies workers
      ensures workers[Route(job.key)].jobs == old(workers[Route(job.key)].jobs) + [job]
      ensures forall i :: 0 <= i < |workers| && i != Route(job.key) ==> workers[i].jobs == old(workers[i].jobs)
      ensures forall i :: 0 <= i < |workers| ==> workers[i].stop == old(workers[i].stop)
    {
      workers[Route(job.key)].PushJob(job);
    }

    method PushFinishJob(job: Job)
      modifies this
      ensures jobs == old(jobs) + [job]
    {
      jobs := jobs + [job];
    }

    /** One round of Svc that nobody interrupts: Swap, then one Deal for each job. */
    method DealRound(worker: HttpWorker)
      requires worker in workers
      modifies this, worker`jobs
      ensures jobs == old(jobs) + old(worker.jobs) && worker.jobs == []
    {
      var batch := worker.TakeBatch();
      var k := 0;
      while k < |batch|
        invariant k <= |batch| && worker.jobs == []
        invariant jobs == old(jobs) + batch[..k]
      {
        PushFinishJob(batch[k]);
        assert batch[..k + 1] == batch[..k] + [batch[k]];
        k := k + 1;
      }
      assert batch[..k] == batch;
    }

    /** Calls back, in order, the jobs that were finished when it began. */
    method ProcessFinishJobs() returns (called: seq<Job>)
      modifies this
      ensures called == old(jobs) && jobs == []
    {
      var batch := jobs;
      jobs := [];
      called := [];
      var k := 0;
      while k < |batch|
        invariant k <= |batch| && called == batch[..k] && jobs == []
      {
        called := called + [batch[k]];
        k := k + 1;
      }
    }
  }

  function Repeat(act: Action, n: nat): (r: seq<Action>)
    ensures |r| == n
  {
    if n == 0 then [] else [act] + Repeat(act, n - 1)
  }

  lemma {:induction false} DealsAlone(p: Pool, i: nat)
    requires HasWorker(p, i) && p.workers[i].phase.Dealing?
    ensures var acts := Repeat(Deal(i), |p.workers[i].batch|);
            Allowed(p, acts) && Run(p, acts) == SetWorker(p, i, p.workers[i].(batch := [])).(jobs := p.jobs + p.workers[i].batch)
    decreases |p.workers[i].batch|
  {
    var batch := p.workers[i].batch;
    if batch == [] {
      assert p.workers[i := p.workers[i].(batch := [])] == p.workers;
    } else {
      var p' := Step(p, Deal(i));
      DealsAlone(p', i);
      var acts := Repeat(Deal(i), |batch|);
      assert acts[0] == Deal(i) && acts[1..] == Repeat(Deal(i), |batch| - 1);
      assert p.workers[i := p'.workers[i]][i := p.workers[i].(batch := [])] == p.workers[i := p.workers[i].(batch := [])];
      assert p.jobs + [batch[0]] + batch[1..] == p.jobs + batch;
    }
  }

  /** DealRound does what Swap and the deals do when nothing comes between them. */
  lemma RoundAloneIsDealRound(p: Pool, i: nat)
    requires Enabled(p, Swap(i))
    ensures var acts := [Swap(i)] + Repeat(Deal(i), |p.workers[i].jobs|);
            && Allowed(p, acts)
            && Run(p, acts) == SetWorker(p, i, p.workers[i].(phase := Dealing, jobs := [], batch := [])).(jobs := p.jobs + p.workers[i].jobs)
  {
    var p' := Step(p, Swap(i));
    var deals := Repeat(Deal(i), |p.workers[i].jobs|);
    DealsAlone(p', i);
    assert ([Swap(i)] + deals)[1..] == deals;
    var w := p.workers[i].(phase := Dealing, jobs := [], batch := []);
    assert p.workers[i := p'.workers[i]][i := w] == p.workers[i := w];
  }
}
