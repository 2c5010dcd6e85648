/** The bounded pool that runs "other" requests (libril_threads/thread_pool.cpp).

    The first half is the mutex-protected part of the pool: what one critical section does to the
    job queue and to the counters, as functions on values and as a class whose methods update the
    fields in place.  The second half is the pool as a step system: any number of workers, a
    dispatcher and a destroyer interleave at the points where the source gives up the mutex. */
module ThreadPool {

  type Job = nat

  datatype Mode = PoolValid | PoolExit

  /** The fields of threadpool_t that the mutex protects. */
  datatype Shared = Shared(queue: seq<Job>, alive: int, waiting: int, max: nat, mode: Mode)

  /** Where a worker stands between two critical sections.  `mustExit` is its local variable. */
  datatype Worker =
    | Ready(mustExit: bool)
    | Asleep(mustExit: bool)
    | Woken(mustExit: bool)
    | TimedOut(mustExit: bool)
    | Running(job: Job, mustExit: bool)
    | Leaving
    | Gone

  // ---------- one critical section ----------

  /** From the end of the waiting loop to the unlock, and the branch taken right after it. */
  function Take(sh: Shared, mustExit: bool): (Shared, Worker) {
    var leave := mustExit || sh.mode == PoolExit;
    var sh' := sh.(waiting := sh.waiting - 1);
    if sh.queue != [] then (sh'.(queue := sh.queue[1..]), Running(sh.queue[0], leave))
    else (sh', if leave then Leaving else Ready(leave))
  }

  /** The test of the waiting loop: back to sleep, or on to the queue. */
  function WaitOrTake(sh: Shared, mustExit: bool): (Shared, Worker) {
    if sh.queue == [] && sh.mode != PoolExit then (sh, Asleep(mustExit)) else Take(sh, mustExit)
  }

  function Enter(sh: Shared, mustExit: bool): (Shared, Worker) {
    WaitOrTake(sh.(waiting := sh.waiting + 1), mustExit)
  }

  /** What thread_pool_dispatch leaves behind, and whether it has started a worker. */
  function Put(sh: Shared, job: Job, createSucceeds: bool): (Shared, bool) {
    if sh.mode != PoolValid then (sh, false)
    else
      var create := sh.waiting == 0 && sh.alive < sh.max && createSucceeds;
      (sh.(queue := sh.queue + [job], alive := if create then sh.alive + 1 else sh.alive), create)
  }

  class SharedPool {
    var queue: seq<Job>
    var alive: int
    var waiting: int
    const max: nat
    var mode: Mode

    constructor (maxThreads: nat)
      requires maxThreads > 0
      ensures View() == Shared([], 0, 0, maxThreads, PoolValid)
    {
      queue, alive, waiting, max, mode := [], 0, 0, maxThreads, PoolValid;
    }

    ghost function View(): Shared
      reads this
    {
      Shared(queue, alive, waiting, max, mode)
    }

    method Dispatch(job: Job, createSucceeds: bool) returns (accepted: bool, created: bool)
      modifies this
      ensures accepted == old(mode == PoolValid)
      ensures (View(), created) == Put(old(View()), job, createSucceeds)
    {
      created := false;
      if mode != PoolValid {
        return false, false;
      }
      queue := queue + [job];
      if waiting == 0 && alive < max {
        if createSucceeds {
          alive := alive + 1;
          created := true;
        }
      }
      accepted := true;
    }

    /** The head of the worker's loop up to its first wait or its first unlock. */
    method WorkerEnter(mustExit: bool) returns (w: Worker)
      modifies this
      ensures (View(), w) == Enter(old(View()), mustExit)
    {
      waiting := waiting + 1;
      w := WorkerResume(mustExit);
    }

    /** A worker that a signal or a spurious wake-up has given the mutex back to. */
    method WorkerResume(mustExit: bool) returns (w: Worker)
      modifies this
      ensures (View(), w) == WaitOrTake(old(View()), mustExit)
    {
      if queue == [] && mode != PoolExit {
        return Asleep(mustExit);
      }
      w := WorkerTake(mustExit);
    }

    /** What follows the waiting loop; a timed-out worker comes here with `mustExit` set. */
    method WorkerTake(mustExit: bool) returns (w: Worker)
      modifies this
      ensures (View(), w) == Take(old(View()), mustExit)
    {
      waiting := waiting - 1;
      var leave := mustExit;
      if mode == PoolExit {
        leave := true;
      }
      if queue != [] {
        w := Running(queue[0], leave);
        queue := queue[1..];
      } else if leave {
        w := Leaving;
      } else {
        w := Ready(leave);
      }
    }

    method WorkerDepart() returns (broadcast: bool)
      modifies this
      ensures View() == old(View()).(alive := old(alive) - 1)
      ensures broadcast <==> alive == 0
    {
      alive := alive - 1;
      broadcast := alive == 0;
    }
  }

  // ---------- the step system ----------

  datatype Destroyer = NotCalled | WaitingForWorkers | Notified | Done

  /** `dispatched` and `started` are histories: the jobs accepted, and those handed to a handler. */
  datatype Pool = Pool(sh: Shared, workers: seq<Worker>, destroyer: Destroyer,
                       dispatched: seq<Job>, started: seq<Job>)

  /** `target` is the sleeper that the signal at the end of a dispatch wakes, if there is one. */
  datatype Event =
    | Dispatch(job: Job, createSucceeds: bool, target: nat)
    | WorkerEnters(i: nat)
    | SpuriousWake(i: nat)
    | Timeout(i: nat)
    | WorkerResumes(i: nat)
    | HandlerReturns(i: nat)
    | WorkerDeparts(i: nat)
    | BeginDestroy
    | DestroyerResumes

  /** The step is taken by a worker (or by the clock on its behalf), not by a caller of the pool. */
  predicate IsWorkerStep(e: Event) {
    !(e.Dispatch? || e.BeginDestroy? || e.DestroyerResumes?)
  }

  predicate SomeAsleep(ws: seq<Worker>) {
    exists k :: 0 <= k < |ws| && ws[k].Asleep?
  }

  predicate Enabled(s: Pool, e: Event) {
    match e
    case Dispatch(_, _, k) =>
      s.destroyer != Done && (SomeAsleep(s.workers) ==> k < |s.workers| && s.workers[k].Asleep?)
    case WorkerEnters(i) => i < |s.workers| && s.workers[i].Ready?
    case SpuriousWake(i) => i < |s.workers| && s.workers[i].Asleep?
    case Timeout(i) => i < |s.workers| && s.workers[i].Asleep?
    case WorkerResumes(i) => i < |s.workers| && (s.workers[i].Woken? || s.workers[i].TimedOut?)
    case HandlerReturns(i) => i < |s.workers| && s.workers[i].Running?
    case WorkerDeparts(i) => i < |s.workers| && s.workers[i].Leaving?
    case BeginDestroy => s.sh.mode == PoolValid
    case DestroyerResumes => s.destroyer == Notified
  }

  function WakeAll(ws: seq<Worker>): (r: seq<Worker>)
    ensures |r| == |ws|
    ensures forall i :: 0 <= i < |ws| ==>
      r[i] == if ws[i].Asleep? then Woken(ws[i].mustExit) else ws[i]
  {
    seq(|ws|, i requires 0 <= i < |ws| => if ws[i].Asleep? then Woken(ws[i].mustExit) else ws[i])
  }

  /** A worker leaves a critical section that may have handed it a job. */
  function AfterSection(s: Pool, i: nat, r: (Shared, Worker)): Pool
    requires i < |s.workers|
  {
    s.(sh := r.0, workers := s.workers[i := r.1],
       started := if r.1.Running? then s.started + [r.1.job] else s.started)
  }

  function Apply(s: Pool, e: Event): Pool
    requires Enabled(s, e)
  {
    match e
    case Dispatch(job, createSucceeds, k) =>
      if s.sh.mode != PoolValid then s
      else
        var (sh', created) := Put(s.sh, job, createSucceeds);
        var ws := if created then s.workers + [Ready(false)] else s.workers;
        var ws' := if SomeAsleep(s.workers) then ws[k := Woken(s.workers[k].mustExit)] else ws;
        s.(sh := sh', workers := ws', dispatched := s.dispatched + [job])
    case WorkerEnters(i) => AfterSection(s, i, Enter(s.sh, s.workers[i].mustExit))
    case SpuriousWake(i) => s.(workers := s.workers[i := Woken(s.workers[i].mustExit)])
    case Timeout(i) => s.(workers := s.workers[i := TimedOut(s.workers[i].mustExit)])
    case WorkerResumes(i) =>
      AfterSection(s, i, if s.workers[i].TimedOut? then Take(s.sh, true)
                         else WaitOrTake(s.sh, s.workers[i].mustExit))
    case HandlerReturns(i) => s.(workers := s.workers[i := Ready(s.workers[i].mustExit)])
    case WorkerDeparts(i) =>
      var sh' := s.sh.(alive := s.sh.alive - 1);
      s.(sh := sh', workers := s.workers[i := Gone],
         destroyer := if sh'.alive == 0 && s.destroyer == WaitingForWorkers then Notified
                      else s.destroyer)
    case BeginDestroy =>
      s.(sh := s.sh.(mode := PoolExit),
         workers := if s.sh.alive > 0 then WakeAll(s.workers) else s.workers,
         destroyer := if s.sh.alive > 0 then WaitingForWorkers else Done)
    case DestroyerResumes =>
      s.(destroyer := if s.sh.alive > 0 then WaitingForWorkers else Done)
  }

  function Init(maxThreads: nat): Pool {
    Pool(Shared([], 0, 0, maxThreads, PoolValid), [], NotCalled, [], [])
  }

  /** The state that the events of `es`, taken in order, lead to. */
  ghost predicate Reaches(s: Pool, es: seq<Event>, t: Pool)
    decreases |es|
  {
    if es == [] then s == t
    else Enabled(s, es[0]) && Reaches(Apply(s, es[0]), es[1..], t)
  }

  // ---------- sums over the workers ----------

  function Sum(ws: seq<Worker>, f: Worker -> int): int {
    if ws == [] then 0 else Sum(ws[..|ws| - 1], f) + f(ws[|ws| - 1])
  }

  lemma {:induction false} SumUpdate(ws: seq<Worker>, i: nat, w: Worker, f: Worker -> int)
    requires i < |ws|
    ensures Sum(ws[i := w], f) == Sum(ws, f) - f(ws[i]) + f(w)
    decreases |ws|
  {
    var n := |ws| - 1;
    if i == n {
      assert ws[i := w][..n] == ws[..n];
    } else {
      SumUpdate(ws[..n], i, w, f);
      assert ws[i := w][..n] == ws[..n][i := w];
    }
  }

  lemma SumAppend(ws: seq<Worker>, w: Worker, f: Worker -> int)
    ensures Sum(ws + [w], f) == Sum(ws, f) + f(w)
  {
    assert (ws + [w])[..|ws|] == ws;
  }

  lemma {:induction false} SumBounds(ws: seq<Worker>, f: Worker -> int, g: Worker -> int)
    requires forall w :: 0 <= f(w) <= g(w)
    ensures 0 <= Sum(ws, f) <= Sum(ws, g)
    decreases |ws|
  {
    if ws != [] {
      SumBounds(ws[..|ws| - 1], f, g);
    }
  }

  lemma {:induction false} SumPositive(ws: seq<Worker>, f: Worker -> int) returns (i: nat)
    requires Sum(ws, f) > 0
    ensures i < |ws| && f(ws[i]) > 0
    decreases |ws|
  {
    var n := |ws| - 1;
    if f(ws[n]) > 0 {
      i := n;
    } else {
      i := SumPositive(ws[..n], f);
    }
  }

  lemma {:induction false} SumAtLeast(ws: seq<Worker>, i: nat, f: Worker -> int)
    requires i < |ws| && forall w :: 0 <= f(w)
    ensures Sum(ws, f) >= f(ws[i])
    decreases |ws|
  {
    var n := |ws| - 1;
    SumBounds(ws[..n], f, f);
    if i < n {
      SumAtLeast(ws[..n], i, f);
    }
  }

  lemma {:induction false} SumWakeAll(ws: seq<Worker>, f: Worker -> int)
    requires forall b :: f(Woken(b)) <= f(Asleep(b))
    ensures Sum(WakeAll(ws), f) <= Sum(ws, f)
    ensures (forall b :: f(Woken(b)) == f(Asleep(b))) ==> Sum(WakeAll(ws), f) == Sum(ws, f)
    decreases |ws|
  {
    if ws != [] {
      var n := |ws| - 1;
      SumWakeAll(ws[..n], f);
      assert WakeAll(ws)[..n] == WakeAll(ws[..n]);
    }
  }

  function IsAlive(w: Worker): int { if w.Gone? then 0 else 1 }
  function IsWaiting(w: Worker): int { if w.Asleep? || w.Woken? || w.TimedOut? then 1 else 0 }
  function IsLeaving(w: Worker): int { if w.Leaving? then 1 else 0 }

  /** How many steps a worker may still take without serving the queue. */
  function Idling(w: Worker): int {
    match w
    case Asleep(_) => 2
    case Running(_, _) => 2
    case Gone => 0
    case _ => 1
  }

  // ---------- safety ----------

  predicate Inv(s: Pool) {
    && s.sh.alive == Sum(s.workers, IsAlive)
    && s.sh.waiting == Sum(s.workers, IsWaiting)
    && 0 <= s.sh.waiting <= s.sh.alive <= s.sh.max
    && s.dispatched == s.started + s.sh.queue
    && (s.sh.mode == PoolExit <==> s.destroyer != NotCalled)
    && (s.sh.mode == PoolExit ==> !SomeAsleep(s.workers))
    && (s.destroyer == WaitingForWorkers ==> s.sh.alive > 0)
    && (s.destroyer == Done ==> s.sh.alive == 0)
  }

  lemma WaitingBelowAlive(ws: seq<Worker>)
    ensures 0 <= Sum(ws, IsWaiting) <= Sum(ws, IsAlive)
  {
    SumBounds(ws, IsWaiting, IsAlive);
  }

  /** One worker changes its phase. */
  lemma MoveWorker(s: Pool, i: nat, w: Worker)
    requires i < |s.workers|
    ensures var ws := s.workers[i := w];
      && Sum(ws, IsAlive) == Sum(s.workers, IsAlive) - IsAlive(s.workers[i]) + IsAlive(w)
      && Sum(ws, IsWaiting) == Sum(s.workers, IsWaiting) - IsWaiting(s.workers[i]) + IsWaiting(w)
      && Sum(ws, IsLeaving) == Sum(s.workers, IsLeaving) - IsLeaving(s.workers[i]) + IsLeaving(w)
      && Sum(ws, Idling) == Sum(s.workers, Idling) - Idling(s.workers[i]) + Idling(w)
      && 0 <= Sum(ws, IsWaiting) <= Sum(ws, IsAlive)
  {
    SumUpdate(s.workers, i, w, IsAlive);
    SumUpdate(s.workers, i, w, IsWaiting);
    SumUpdate(s.workers, i, w, IsLeaving);
    SumUpdate(s.workers, i, w, Idling);
    WaitingBelowAlive(s.workers[i := w]);
  }

  /** What a dispatch does to the workers, for every sum taken over them. */
  lemma DispatchSums(s: Pool, e: Event, f: Worker -> int)
    requires Enabled(s, e) && e.Dispatch? && s.sh.mode == PoolValid
    ensures var created := Put(s.sh, e.job, e.createSucceeds).1;
      var s' := Apply(s, e);
      Sum(s'.workers, f) == Sum(s.workers, f) + (if created then f(Ready(false)) else 0)
        + (if SomeAsleep(s.workers)
           then f(Woken(s.workers[e.target].mustExit)) - f(s.workers[e.target]) else 0)
  {
    var created := Put(s.sh, e.job, e.createSucceeds).1;
    var ws := if created then s.workers + [Ready(false)] else s.workers;
    SumAppend(s.workers, Ready(false), f);
    if SomeAsleep(s.workers) {
      SumUpdate(ws, e.target, Woken(s.workers[e.target].mustExit), f);
    }
  }

  lemma DispatchKeepsInv(s: Pool, e: Event)
    requires Inv(s) && Enabled(s, e) && e.Dispatch?
    ensures Inv(Apply(s, e))
  {
    if s.sh.mode == PoolValid {
      DispatchSums(s, e, IsAlive);
      DispatchSums(s, e, IsWaiting);
      WaitingBelowAlive(Apply(s, e).workers);
    }
  }

  lemma DestroyKeepsInv(s: Pool, e: Event)
    requires Inv(s) && Enabled(s, e) && (e.BeginDestroy? || e.DestroyerResumes?)
    ensures Inv(Apply(s, e))
  {
    if e.BeginDestroy? {
      SumWakeAll(s.workers, IsAlive);
      SumWakeAll(s.workers, IsWaiting);
      if s.sh.alive == 0 && SomeAsleep(s.workers) {
        var k :| 0 <= k < |s.workers| && s.workers[k].Asleep?;
        SumAtLeast(s.workers, k, IsAlive);
      }
    }
  }

  lemma NobodyFallsAsleep(s: Pool, i: nat, w: Worker)
    requires i < |s.workers| && !SomeAsleep(s.workers) && !w.Asleep?
    ensures !SomeAsleep(s.workers[i := w])
  {
  }

  lemma WorkerKeepsCounts(s: Pool, e: Event)
    requires Inv(s) && Enabled(s, e) && IsWorkerStep(e)
    ensures var n := Apply(s, e);
      && n.sh.alive == Sum(n.workers, IsAlive) && n.sh.waiting == Sum(n.workers, IsWaiting)
      && 0 <= n.sh.waiting <= n.sh.alive <= n.sh.max
  {
    MoveWorker(s, e.i, Apply(s, e).workers[e.i]);
  }

  lemma WorkerKeepsJobs(s: Pool, e: Event)
    requires s.dispatched == s.started + s.sh.queue && Enabled(s, e) && IsWorkerStep(e)
    ensures var n := Apply(s, e); n.dispatched == n.started + n.sh.queue
  {
    if s.sh.queue != [] {
      assert s.started + s.sh.queue == s.started + [s.sh.queue[0]] + s.sh.queue[1..];
    }
  }

  lemma WorkerKeepsInv(s: Pool, e: Event)
    requires Inv(s) && Enabled(s, e) && IsWorkerStep(e)
    ensures Inv(Apply(s, e))
  {
    WorkerKeepsCounts(s, e);
    WorkerKeepsJobs(s, e);
    if s.sh.mode == PoolExit {
      NobodyFallsAsleep(s, e.i, Apply(s, e).workers[e.i]);
    }
  }

  /** Every step of every thread keeps the counters exact, the queue first-in first-out, and the
      destroyer's wait answerable. */
  lemma StepKeepsInv(s: Pool, e: Event)
    requires Inv(s) && Enabled(s, e)
    ensures Inv(Apply(s, e))
  {
    if IsWorkerStep(e) {
      WorkerKeepsInv(s, e);
    } else if e.Dispatch? {
      DispatchKeepsInv(s, e);
    } else {
      DestroyKeepsInv(s, e);
    }
  }

  lemma {:induction false} RunKeepsInv(s: Pool, es: seq<Event>, t: Pool)
    requires Inv(s) && Reaches(s, es, t)
    ensures Inv(t)
    decreases |es|
  {
    if es != [] {
      StepKeepsInv(s, es[0]);
      RunKeepsInv(Apply(s, es[0]), es[1..], t);
    }
  }

  /** Safety over whole runs from thread_pool_init: the counters stay ordered, and the jobs accepted
      are the jobs started followed by the queue, in dispatch order. */
  lemma PoolSafety(maxThreads: nat, es: seq<Event>, t: Pool)
    requires Reaches(Init(maxThreads), es, t)
    ensures 0 <= t.sh.waiting <= t.sh.alive <= maxThreads == t.sh.max
    ensures t.dispatched == t.started + t.sh.queue
    ensures t.destroyer == WaitingForWorkers ==> exists i :: 0 <= i < |t.workers| && !t.workers[i].Gone?
  {
    RunKeepsInv(Init(maxThreads), es, t);
    MaxIsFixed(Init(maxThreads), es, t);
    if t.destroyer == WaitingForWorkers {
      var i := SumPositive(t.workers, IsAlive);
    }
  }

  lemma {:induction false} MaxIsFixed(s: Pool, es: seq<Event>, t: Pool)
    requires Reaches(s, es, t)
    ensures t.sh.max == s.sh.max
    decreases |es|
  {
    if es != [] {
      MaxIsFixed(Apply(s, es[0]), es[1..], t);
    }
  }

  // ---------- service ----------

  /** Awake, and still going to look at the queue. */
  predicate Serving(w: Worker) {
    w.Ready? || w.Woken? || w.TimedOut? || w.Running?
  }

  predicate Served(s: Pool) {
    s.sh.queue != [] ==> exists i :: 0 <= i < |s.workers| && Serving(s.workers[i])
  }

  /** The window: nothing queued, nobody waiting, every worker still counted is past its exit
      decision, and this dispatch does not start a worker. */
  predicate Stranding(s: Pool, e: Event) {
    && e.Dispatch? && s.sh.mode == PoolValid && s.sh.queue == []
    && (forall i :: 0 <= i < |s.workers| ==> s.workers[i].Leaving? || s.workers[i].Gone?)
    && (s.sh.alive == s.sh.max || !e.createSucceeds)
  }

  /** A dispatch leaves the queue served exactly when it does not fall into the window. */
  lemma DispatchServes(s: Pool, e: Event)
    requires Inv(s) && Served(s) && Enabled(s, e) && e.Dispatch?
    ensures Served(Apply(s, e)) <==> !Stranding(s, e)
  {
    if s.sh.mode == PoolValid {
      if s.sh.queue != [] {
        StillServed(s, e);
      } else if SomeAsleep(s.workers) || s.sh.waiting > 0 {
        SleeperServes(s, e);
      } else {
        NewWorkerServesIff(s, e);
      }
    }
  }

  lemma StillServed(s: Pool, e: Event)
    requires Served(s) && s.sh.queue != [] && Enabled(s, e) && e.Dispatch? && s.sh.mode == PoolValid
    ensures Served(Apply(s, e)) && !Stranding(s, e)
  {
    var i :| 0 <= i < |s.workers| && Serving(s.workers[i]);
    assert Serving(Apply(s, e).workers[i]);
  }

  lemma SleeperServes(s: Pool, e: Event)
    requires Inv(s) && Enabled(s, e) && e.Dispatch? && s.sh.mode == PoolValid
    requires SomeAsleep(s.workers) || s.sh.waiting > 0
    ensures Served(Apply(s, e)) && !Stranding(s, e)
  {
    var i := e.target;
    if !SomeAsleep(s.workers) {
      i := SumPositive(s.workers, IsWaiting);
    }
    assert Serving(Apply(s, e).workers[i]) && !s.workers[i].Leaving? && !s.workers[i].Gone?;
  }

  lemma NewWorkerServesIff(s: Pool, e: Event)
    requires Inv(s) && Enabled(s, e) && e.Dispatch? && s.sh.mode == PoolValid && s.sh.queue == []
    requires !SomeAsleep(s.workers) && s.sh.waiting == 0
    ensures Served(Apply(s, e)) <==> !Stranding(s, e)
  {
    var s' := Apply(s, e);
    if Put(s.sh, e.job, e.createSucceeds).1 {
      assert Serving(s'.workers[|s.workers|]);
    } else {
      assert s'.workers == s.workers;
    }
  }

  lemma StepKeepsServed(s: Pool, e: Event)
    requires Inv(s) && Served(s) && Enabled(s, e) && !Stranding(s, e)
    ensures Served(Apply(s, e))
  {
    var s' := Apply(s, e);
    if e.Dispatch? {
      DispatchServes(s, e);
    } else if s'.sh.queue != [] {
      var i :| 0 <= i < |s.workers| && Serving(s.workers[i]);
      assert Serving(s'.workers[i]);
    }
  }

  ghost predicate NeverStrands(s: Pool, es: seq<Event>, t: Pool)
    requires Reaches(s, es, t)
    decreases |es|
  {
    es != [] ==> !Stranding(s, es[0]) && NeverStrands(Apply(s, es[0]), es[1..], t)
  }

  /** A run none of whose dispatches falls into the window always has somebody awake for a
      non-empty queue. */
  lemma {:induction false} RunKeepsServed(s: Pool, es: seq<Event>, t: Pool)
    requires Inv(s) && Served(s) && Reaches(s, es, t) && NeverStrands(s, es, t)
    ensures Inv(t) && Served(t)
    decreases |es|
  {
    if es != [] {
      StepKeepsInv(s, es[0]);
      StepKeepsServed(s, es[0]);
      RunKeepsServed(Apply(s, es[0]), es[1..], t);
    }
  }

  // ---------- every queued job is started ----------

  function WorkerSteps(es: seq<Event>): nat {
    if es == [] then 0 else (if IsWorkerStep(es[0]) then 1 else 0) + WorkerSteps(es[1..])
  }

  /** An upper bound on the worker steps that can precede the start of the k-th dispatched job. */
  function Distance(s: Pool, k: nat): int {
    3 * (k + 1 - |s.started|) + Sum(s.workers, Idling)
      + (s.sh.max - (s.sh.alive - Sum(s.workers, IsLeaving)))
  }

  predicate Queued(s: Pool, k: nat) {
    |s.started| <= k < |s.dispatched|
  }

  lemma DistancePositive(s: Pool, k: nat)
    requires Inv(s) && Queued(s, k)
    ensures Distance(s, k) > 0
  {
    SumBounds(s.workers, Idling, Idling);
    SumBounds(s.workers, IsLeaving, IsLeaving);
  }

  lemma DispatchKeepsDistance(s: Pool, e: Event, k: nat)
    requires Inv(s) && Enabled(s, e) && e.Dispatch?
    ensures Distance(Apply(s, e), k) <= Distance(s, k)
  {
    if s.sh.mode == PoolValid {
      DispatchSums(s, e, Idling);
      DispatchSums(s, e, IsLeaving);
    }
  }

  lemma DestroyKeepsDistance(s: Pool, e: Event, k: nat)
    requires Inv(s) && Enabled(s, e) && (e.BeginDestroy? || e.DestroyerResumes?)
    ensures Distance(Apply(s, e), k) <= Distance(s, k)
  {
    SumWakeAll(s.workers, Idling);
    SumWakeAll(s.workers, IsLeaving);
  }

  lemma WorkerComesCloser(s: Pool, e: Event, k: nat)
    requires Inv(s) && Queued(s, k) && Enabled(s, e) && IsWorkerStep(e)
    ensures Distance(Apply(s, e), k) < Distance(s, k)
  {
    MoveWorker(s, e.i, Apply(s, e).workers[e.i]);
  }

  /** While the job waits, callers never push it back and every worker step brings it closer. */
  lemma StepComesCloser(s: Pool, e: Event, k: nat)
    requires Inv(s) && Queued(s, k) && Enabled(s, e)
    ensures Distance(Apply(s, e), k) <= Distance(s, k)
    ensures IsWorkerStep(e) ==> Distance(Apply(s, e), k) < Distance(s, k)
  {
    if e.Dispatch? {
      DispatchKeepsDistance(s, e, k);
    } else if IsWorkerStep(e) {
      WorkerComesCloser(s, e, k);
    } else {
      DestroyKeepsDistance(s, e, k);
    }
  }

  /** The pool is never stuck on a served queue: some worker has a step to take. */
  lemma SomeWorkerCanStep(s: Pool)
    requires Served(s) && s.sh.queue != []
    ensures exists e :: IsWorkerStep(e) && Enabled(s, e)
  {
    var i :| 0 <= i < |s.workers| && Serving(s.workers[i]);
    if s.workers[i].Ready? {
      assert Enabled(s, WorkerEnters(i));
    } else if s.workers[i].Running? {
      assert Enabled(s, HandlerReturns(i));
    } else {
      assert Enabled(s, WorkerResumes(i));
    }
  }

  /** However dispatches and the destroyer interleave, a queued job has been started once the
      workers have taken `Distance` steps. */
  lemma {:induction false} JobIsStarted(s: Pool, es: seq<Event>, t: Pool, k: nat)
    requires Inv(s) && Reaches(s, es, t) && k < |s.dispatched|
    requires |s.started| <= k ==> WorkerSteps(es) >= Distance(s, k)
    ensures |t.started| > k && t.started[k] == s.dispatched[k]
    decreases |es|
  {
    if es == [] {
      if Queued(s, k) {
        DistancePositive(s, k);
      }
    } else {
      var s' := Apply(s, es[0]);
      StepKeepsInv(s, es[0]);
      assert s.dispatched <= s'.dispatched;
      if Queued(s, k) {
        StepComesCloser(s, es[0], k);
      }
      JobIsStarted(s', es[1..], t, k);
    }
  }

  // ---------- the window is real ----------

  lemma {:induction false} Extend(s: Pool, es: seq<Event>, m: Pool, e: Event)
    requires Reaches(s, es, m) && Enabled(m, e)
    ensures Reaches(s, es + [e], Apply(m, e))
    decreases |es|
  {
    if es == [] {
      assert [e][1..] == [] && Reaches(Apply(m, e), [], Apply(m, e));
    } else {
      Extend(Apply(s, es[0]), es[1..], m, e);
      assert (es + [e])[1..] == es[1..] + [e];
    }
  }

  /** Jobs are queued, and every worker is past its exit decision. */
  predicate Stranded(s: Pool) {
    s.sh.queue != [] && forall i :: 0 <= i < |s.workers| ==> s.workers[i].Leaving? || s.workers[i].Gone?
  }

  predicate Creates(s: Pool, e: Event) {
    e.Dispatch? && s.sh.mode == PoolValid && Put(s.sh, e.job, e.createSucceeds).1
  }

  lemma NobodyWaits(s: Pool)
    requires Inv(s) && Stranded(s)
    ensures s.sh.waiting == 0 && !SomeAsleep(s.workers)
  {
    if s.sh.waiting > 0 {
      var i := SumPositive(s.workers, IsWaiting);
    }
  }

  /** A dispatch in the window strands its job; and a step from there serves the queue again iff it is a
      dispatch that creates a worker, for which a worker must have stopped being counted. Any other step
      starts no job. */
  lemma StrandedUntilCreation(s: Pool, e: Event)
    requires Inv(s) && Enabled(s, e)
    ensures Served(s) && Stranding(s, e) ==> Stranded(Apply(s, e))
    ensures Stranded(s) ==>
      && (Served(Apply(s, e)) <==> Creates(s, e))
      && (Creates(s, e) <==> e.Dispatch? && s.sh.mode == PoolValid && s.sh.alive < s.sh.max && e.createSucceeds)
      && (!Creates(s, e) ==> Stranded(Apply(s, e)) && Apply(s, e).started == s.started)
  {
    if Stranded(s) {
      NobodyWaits(s);
      if Creates(s, e) {
        assert Serving(Apply(s, e).workers[|s.workers|]);
      }
    }
  }

  ghost predicate NeverCreates(s: Pool, es: seq<Event>, t: Pool)
    requires Reaches(s, es, t)
    decreases |es|
  {
    es != [] ==> !Creates(s, es[0]) && NeverCreates(Apply(s, es[0]), es[1..], t)
  }

  /** Stranded jobs wait as long as no dispatch creates a worker, whatever else happens. */
  lemma {:induction false} RunStaysStranded(s: Pool, es: seq<Event>, t: Pool)
    requires Inv(s) && Stranded(s) && Reaches(s, es, t) && NeverCreates(s, es, t)
    ensures Stranded(t) && t.started == s.started
    decreases |es|
  {
    if es != [] {
      StrandedUntilCreation(s, es[0]);
      StepKeepsInv(s, es[0]);
      RunStaysStranded(Apply(s, es[0]), es[1..], t);
    }
  }

  lemma DispatchKeepsJobs(s: Pool, e: Event, k: nat)
    requires Enabled(s, e) && e.Dispatch? && k < |s.dispatched|
    ensures var n := Apply(s, e);
      n.started == s.started && k < |n.dispatched| && n.dispatched[k] == s.dispatched[k]
  {
  }

  /** After a dispatch that does, the stranded jobs are started like any others. */
  lemma StrandedJobIsStarted(s: Pool, e: Event, es: seq<Event>, t: Pool, k: nat)
    requires Inv(s) && Stranded(s) && Enabled(s, e) && Creates(s, e) && Reaches(Apply(s, e), es, t)
    requires k < |s.sh.queue| && WorkerSteps(es) >= Distance(Apply(s, e), |s.started| + k)
    ensures |t.started| > |s.started| + k && t.started[|s.started| + k] == s.sh.queue[k]
  {
    StepKeepsInv(s, e);
    StrandedUntilCreation(s, e);
    DispatchKeepsJobs(s, e, |s.started| + k);
    JobIsStarted(Apply(s, e), es, t, |s.started| + k);
    assert s.dispatched[|s.started| + k] == s.sh.queue[k];
  }

  /** One worker, one thread allowed: the worker times out, and the next job arrives after it has
      decided to leave and before it has stopped being counted. Nobody is left to start it, until
      the dispatch of a further job creates a worker. */
  lemma WindowStrandsJob() returns (es: seq<Event>, t: Pool)
    ensures Reaches(Init(1), es, t) && Stranded(t)
    ensures t.sh.queue == [8] && t.sh.alive == 0 && t.sh.mode == PoolValid
    ensures forall e :: IsWorkerStep(e) ==> !Enabled(t, e)
    ensures Enabled(t, Dispatch(9, true, 0)) && Creates(t, Dispatch(9, true, 0))
  {
    es, t := UntilItLeaves();
    es, t := Play(es, t, Dispatch(8, true, 0));
    es, t := Play(es, t, WorkerDeparts(0));
    assert t.workers == [Gone];
  }

  lemma UntilItLeaves() returns (es: seq<Event>, t: Pool)
    ensures Reaches(Init(1), es, t)
    ensures t == Pool(Shared([], 1, 0, 1, PoolValid), [Leaving], NotCalled, [7], [7])
  {
    es, t := [], Init(1);
    es, t := Play(es, t, Dispatch(7, true, 0));
    assert t.workers == [Ready(false)];
    es, t := Play(es, t, WorkerEnters(0));
    es, t := Play(es, t, HandlerReturns(0));
    es, t := Play(es, t, WorkerEnters(0));
    es, t := Play(es, t, Timeout(0));
    es, t := Play(es, t, WorkerResumes(0));
    assert t.workers == [Leaving];
  }

  lemma Play(es: seq<Event>, s: Pool, e: Event) returns (es': seq<Event>, s': Pool)
    requires Reaches(Init(1), es, s) && Enabled(s, e)
    ensures es' == es + [e] && s' == Apply(s, e) && Reaches(Init(1), es', s')
  {
    Extend(Init(1), es, s, e);
    es', s' := es + [e], Apply(s, e);
  }
}
