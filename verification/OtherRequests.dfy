/** otherDispatch in front of the thread pool: the dispatcher hands each request to
    thread_pool_dispatch, retrying until the pool takes it, and only then unlists it. */
module OtherRequests {
  import D = RequestDispatch
  import P = ThreadPool

  /** `accepted`: the request being processed is in the pool already. */
  datatype Joint = Joint(d: D.Dispatcher, p: P.Pool, accepted: bool)

  datatype Event =
    | InDispatcher(de: D.Event)
    | HandOver(createSucceeds: bool, target: nat)
    | InPool(pe: P.Event)

  predicate Enabled(s: Joint, e: Event) {
    match e
    case InDispatcher(de) =>
      && D.Enabled(s.d, de)
      && (de.Append? ==> de.toCall)
      && (de.Advance? && s.d.pc.Processing? ==> s.accepted)
    case HandOver(createSucceeds, target) =>
      && s.d.pc == D.Processing(true) && s.d.call != [] && !s.accepted
      && P.Enabled(s.p, P.Dispatch(s.d.call[0], createSucceeds, target))
    case InPool(pe) => !pe.Dispatch? && P.Enabled(s.p, pe)
  }

  function Apply(s: Joint, e: Event): Joint
    requires Enabled(s, e)
  {
    match e
    case InDispatcher(de) =>
      s.(d := D.Apply(s.d, de),
         accepted := if de.Advance? && s.d.pc.Processing? then false else s.accepted)
    case HandOver(createSucceeds, target) =>
      s.(p := P.Apply(s.p, P.Dispatch(s.d.call[0], createSucceeds, target)),
         accepted := s.p.sh.mode == P.PoolValid)
    case InPool(pe) => s.(p := P.Apply(s.p, pe))
  }

  ghost predicate Reaches(s: Joint, es: seq<Event>, t: Joint)
    decreases |es|
  {
    if es == [] then s == t
    else Enabled(s, es[0]) && Reaches(Apply(s, es[0]), es[1..], t)
  }

  /** The requests the dispatcher still has to get into the pool, in order. */
  function NotYetInPool(s: Joint): seq<D.Request> {
    if s.accepted && s.d.call != [] then s.d.call[1..] else s.d.call
  }

  predicate Inv(s: Joint) {
    && D.Inv(s.d) && P.Inv(s.p)
    && s.d.sim == [] && s.d.pc != D.Processing(false) && s.d.pc != D.ChoseSim
    && (s.accepted ==> s.d.pc == D.Processing(true))
    && s.d.enqueuedCall == s.p.dispatched + NotYetInPool(s)
  }

  lemma AppendKeepsInv(s: Joint, e: Event)
    requires Inv(s) && Enabled(s, e) && e.InDispatcher? && e.de.Append?
    ensures Inv(Apply(s, e))
  {
    D.StepKeepsInv(s.d, e.de);
    assert NotYetInPool(Apply(s, e)) == NotYetInPool(s) + [e.de.r];
  }

  lemma DispatcherKeepsInv(s: Joint, e: Event)
    requires Inv(s) && Enabled(s, e) && e.InDispatcher? && !e.de.Append?
    ensures Inv(Apply(s, e))
  {
    D.StepKeepsInv(s.d, e.de);
  }

  lemma HandOverKeepsInv(s: Joint, e: Event)
    requires Inv(s) && Enabled(s, e) && e.HandOver?
    ensures Inv(Apply(s, e))
  {
    P.StepKeepsInv(s.p, P.Dispatch(s.d.call[0], e.createSucceeds, e.target));
    assert s.d.call == [s.d.call[0]] + s.d.call[1..];
  }

  lemma PoolKeepsInv(s: Joint, e: Event)
    requires Inv(s) && Enabled(s, e) && e.InPool?
    ensures Inv(Apply(s, e))
  {
    P.StepKeepsInv(s.p, e.pe);
    assert Apply(s, e).p.dispatched == s.p.dispatched;
  }

  lemma StepKeepsInv(s: Joint, e: Event)
    requires Inv(s) && Enabled(s, e)
    ensures Inv(Apply(s, e))
  {
    match e
    case InDispatcher(de) =>
      if de.Append? {
        AppendKeepsInv(s, e);
      } else {
        DispatcherKeepsInv(s, e);
      }
    case HandOver(_, _) => HandOverKeepsInv(s, e);
    case InPool(_) => PoolKeepsInv(s, e);
  }

  lemma {:induction false} RunKeepsInv(s: Joint, es: seq<Event>, t: Joint)
    requires Inv(s) && Reaches(s, es, t)
    ensures Inv(t)
    decreases |es|
  {
    if es != [] {
      StepKeepsInv(s, es[0]);
      RunKeepsInv(Apply(s, es[0]), es[1..], t);
    }
  }

  function Init(maxThreads: nat): Joint {
    Joint(D.INIT, P.Init(maxThreads), false)
  }

  /** End to end: the requests enqueued are those started by a worker, then those queued in the
      pool, then those still listed -- each once, in the order of their enqueueing. */
  lemma EndToEndOrder(maxThreads: nat, es: seq<Event>, t: Joint)
    requires Reaches(Init(maxThreads), es, t)
    ensures t.d.enqueuedCall == t.p.started + t.p.sh.queue + NotYetInPool(t)
  {
    RunKeepsInv(Init(maxThreads), es, t);
  }

  // ---------- end-to-end service ----------

  /** The dispatcher thread makes progress: a move of its own or a wake-up, or a hand-over. */
  predicate IsFrontStep(s: Joint, e: Event) {
    e.HandOver? || (e.InDispatcher? && D.Moves(s.d, e.de))
  }

  ghost function FrontSteps(s: Joint, es: seq<Event>, t: Joint): nat
    requires Reaches(s, es, t)
    decreases |es|
  {
    if es == [] then 0
    else (if IsFrontStep(s, es[0]) then 1 else 0) + FrontSteps(Apply(s, es[0]), es[1..], t)
  }

  function WorkerSteps(es: seq<Event>): nat {
    if es == [] then 0
    else (if es[0].InPool? && P.IsWorkerStep(es[0].pe) then 1 else 0) + WorkerSteps(es[1..])
  }

  /** How far the k-th request is from being in the pool. */
  function FrontDistance(s: Joint, k: nat): int {
    D.CallDistance(s.d, k) + k + 1 - |s.p.dispatched|
  }

  predicate Open(s: Joint) {
    s.p.sh.mode == P.PoolValid
  }

  lemma InPoolOrBeingHandedOver(s: Joint)
    requires Inv(s)
    ensures |s.d.handedCall| == |s.p.dispatched| + if s.d.pc == D.Processing(true) && !s.accepted then 1 else 0
  {
  }

  /** Every front step brings it closer and nothing pushes it back, while the pool is open. */
  lemma StepComesCloser(s: Joint, e: Event, k: nat)
    requires Inv(s) && Open(s) && Enabled(s, e) && |s.p.dispatched| <= k < |s.d.enqueuedCall|
    ensures FrontDistance(Apply(s, e), k) <= FrontDistance(s, k)
    ensures IsFrontStep(s, e) ==> FrontDistance(Apply(s, e), k) < FrontDistance(s, k)
    ensures FrontDistance(s, k) > 0
  {
    InPoolOrBeingHandedOver(s);
    if e.InDispatcher? && |s.d.handedCall| <= k {
      D.CallComesCloser(s.d, e.de, k);
    }
  }

  ghost predicate StaysOpen(s: Joint, es: seq<Event>, t: Joint)
    requires Reaches(s, es, t)
    decreases |es|
  {
    Open(s) && (es != [] ==> StaysOpen(Apply(s, es[0]), es[1..], t))
  }

  lemma AlreadyDispatched(s: Joint, k: nat)
    requires Inv(s) && k < |s.d.enqueuedCall| && (|s.p.dispatched| <= k ==> FrontDistance(s, k) <= 0)
    ensures |s.p.dispatched| > k && s.p.dispatched[k] == s.d.enqueuedCall[k]
  {
    InPoolOrBeingHandedOver(s);
  }

  lemma StepKeepsEnqueued(s: Joint, e: Event, k: nat)
    requires Enabled(s, e) && k < |s.d.enqueuedCall|
    ensures var n := Apply(s, e);
      k < |n.d.enqueuedCall| && n.d.enqueuedCall[k] == s.d.enqueuedCall[k] && |s.p.dispatched| <= |n.p.dispatched|
  {
  }

  lemma OneStepOfRun(s: Joint, es: seq<Event>, t: Joint, k: nat)
    requires es != [] && Inv(s) && Reaches(s, es, t) && StaysOpen(s, es, t) && k < |s.d.enqueuedCall|
    requires |s.p.dispatched| <= k ==> FrontSteps(s, es, t) >= FrontDistance(s, k)
    ensures var n := Apply(s, es[0]);
      && Inv(n) && Reaches(n, es[1..], t) && StaysOpen(n, es[1..], t)
      && k < |n.d.enqueuedCall| && n.d.enqueuedCall[k] == s.d.enqueuedCall[k]
      && (|n.p.dispatched| <= k ==> FrontSteps(n, es[1..], t) >= FrontDistance(n, k))
  {
    StepKeepsInv(s, es[0]);
    StepKeepsEnqueued(s, es[0], k);
    if |s.p.dispatched| <= k {
      StepComesCloser(s, es[0], k);
    }
  }

  /** An enqueued request is in the pool after FrontDistance steps of the dispatcher thread, however
      producers, workers and the clock interleave. */
  lemma {:induction false} RequestIsDispatched(s: Joint, es: seq<Event>, t: Joint, k: nat)
    requires Inv(s) && Reaches(s, es, t) && StaysOpen(s, es, t) && k < |s.d.enqueuedCall|
    requires |s.p.dispatched| <= k ==> FrontSteps(s, es, t) >= FrontDistance(s, k)
    ensures |t.p.dispatched| > k && t.p.dispatched[k] == s.d.enqueuedCall[k]
    decreases |es|
  {
    if es == [] {
      AlreadyDispatched(s, k);
    } else {
      OneStepOfRun(s, es, t, k);
      RequestIsDispatched(Apply(s, es[0]), es[1..], t, k);
    }
  }

  // ---------- the run of the pool ----------

  /** What a step of the whole is for the pool. */
  function PoolEvents(s: Joint, e: Event): seq<P.Event> {
    match e
    case InDispatcher(_) => []
    case HandOver(createSucceeds, target) =>
      if s.d.call == [] then [] else [P.Dispatch(s.d.call[0], createSucceeds, target)]
    case InPool(pe) => [pe]
  }

  ghost function PoolRun(s: Joint, es: seq<Event>, t: Joint): seq<P.Event>
    requires Reaches(s, es, t)
    decreases |es|
  {
    if es == [] then [] else PoolEvents(s, es[0]) + PoolRun(Apply(s, es[0]), es[1..], t)
  }

  lemma {:induction false} PoolRunReaches(s: Joint, es: seq<Event>, t: Joint)
    requires Reaches(s, es, t)
    ensures P.Reaches(s.p, PoolRun(s, es, t), t.p) && P.WorkerSteps(PoolRun(s, es, t)) == WorkerSteps(es)
    decreases |es|
  {
    if es != [] {
      var rest := PoolRun(Apply(s, es[0]), es[1..], t);
      PoolRunReaches(Apply(s, es[0]), es[1..], t);
      if es[0].InDispatcher? {
        assert [] + rest == rest;
      } else {
        var pe := PoolEvents(s, es[0])[0];
        assert PoolEvents(s, es[0]) == [pe];
        assert ([pe] + rest)[1..] == rest;
      }
    }
  }

  /** From its enqueueing to its start: once the dispatcher thread has taken FrontDistance steps the
      request is in the pool, and a worker has started it when the workers have taken Distance steps
      more. */
  lemma RequestIsServed(s: Joint, front: seq<Event>, m: Joint, back: seq<Event>, t: Joint, k: nat)
    requires Inv(s) && k < |s.d.enqueuedCall|
    requires Reaches(s, front, m) && StaysOpen(s, front, m) && Reaches(m, back, t)
    requires |s.p.dispatched| <= k ==> FrontSteps(s, front, m) >= FrontDistance(s, k)
    requires |m.p.started| <= k ==> WorkerSteps(back) >= P.Distance(m.p, k)
    ensures |t.p.started| > k && t.p.started[k] == s.d.enqueuedCall[k]
  {
    RequestIsDispatched(s, front, m, k);
    RunKeepsInv(s, front, m);
    PoolRunReaches(m, back, t);
    P.JobIsStarted(m.p, PoolRun(m, back, t), t.p, k);
  }

  /** These steps can be taken: a request that is not in the pool leaves the dispatcher thread a step, or
      a signal on its way wakes it; and one that is in an unstranded pool leaves a worker a step. */
  lemma SomebodyCanStep(s: Joint, k: nat)
    requires Inv(s) && Open(s) && P.Served(s.p) && |s.p.started| <= k < |s.d.enqueuedCall|
    ensures |s.p.dispatched| <= k ==> exists e :: Enabled(s, e) && IsFrontStep(s, e)
    ensures |s.p.dispatched| > k ==> exists pe :: Enabled(s, InPool(pe)) && P.IsWorkerStep(pe)
  {
    if |s.p.dispatched| > k {
      P.SomeWorkerCanStep(s.p);
      var pe :| P.IsWorkerStep(pe) && P.Enabled(s.p, pe);
      assert Enabled(s, InPool(pe));
    } else {
      FrontCanStep(s);
    }
  }

  lemma FrontCanStep(s: Joint)
    requires Inv(s) && Open(s) && NotYetInPool(s) != []
    ensures exists e :: Enabled(s, e) && IsFrontStep(s, e)
  {
    if s.d.pc.Asleep? {
      var p :| p in s.d.unsignalled;
      assert Enabled(s, InDispatcher(D.Signal(p))) && IsFrontStep(s, InDispatcher(D.Signal(p)));
    } else if s.d.pc == D.Processing(true) && !s.accepted {
      var k := if P.SomeAsleep(s.p.workers) then AsleepOne(s.p.workers) else 0;
      assert Enabled(s, HandOver(true, k)) && IsFrontStep(s, HandOver(true, k));
    } else {
      assert Enabled(s, InDispatcher(D.Advance)) && IsFrontStep(s, InDispatcher(D.Advance));
    }
  }

  ghost function AsleepOne(ws: seq<P.Worker>): (k: nat)
    requires P.SomeAsleep(ws)
    ensures k < |ws| && ws[k].Asleep?
  {
    var k :| 0 <= k < |ws| && ws[k].Asleep?;
    k
  }

  /** No hand-over falls into the pool's window. */
  ghost predicate NeverStrands(s: Joint, es: seq<Event>, t: Joint)
    requires Reaches(s, es, t)
    decreases |es|
  {
    es != [] ==>
      && (forall pe :: pe in PoolEvents(s, es[0]) ==> !P.Stranding(s.p, pe))
      && NeverStrands(Apply(s, es[0]), es[1..], t)
  }

  /** Then the pool is never stranded on the way. */
  lemma {:induction false} RunKeepsServed(s: Joint, es: seq<Event>, t: Joint)
    requires Inv(s) && P.Served(s.p) && Reaches(s, es, t) && NeverStrands(s, es, t)
    ensures Inv(t) && P.Served(t.p)
    decreases |es|
  {
    if es != [] {
      StepKeepsInv(s, es[0]);
      if !es[0].InDispatcher? {
        var pe := PoolEvents(s, es[0])[0];
        assert pe in PoolEvents(s, es[0]);
        P.StepKeepsServed(s.p, pe);
      }
      RunKeepsServed(Apply(s, es[0]), es[1..], t);
    }
  }
}
