/** The request queues and their dispatcher threads (libril_threads/request_threads.c).

    One dispatcher serves two lists, the call list first.  normalDispatch is this machine as it
    stands; slowDispatch, dataDispatch and otherDispatch are the same machine with a second list
    that stays empty.  Producers append under the list mutex and signal later, under another mutex,
    so every read of a list by the dispatcher is a step of its own. */
module RequestDispatch {

  type Request = nat
  type Producer = nat

  /** Where the dispatcher thread stands.  It holds the dispatch mutex in CallEmpty and SawEmpty. */
  datatype Pc =
    | Top
    | CallEmpty
    | SawEmpty
    | Asleep
    | Woken
    | Draining
    | DrainingSim
    | Choosing
    | ChoseSim
    | Processing(fromCall: bool)

  /** `unsignalled` are the producers between their append and their signal; the last five fields
      are histories: `tested` is how many calls had been enqueued when the call list was last found
      empty by the choice between the lists. */
  datatype Dispatcher = Dispatcher(
    call: seq<Request>, sim: seq<Request>, pc: Pc, unsignalled: set<Producer>,
    enqueuedCall: seq<Request>, enqueuedSim: seq<Request>,
    handedCall: seq<Request>, handedSim: seq<Request>, tested: nat)

  datatype Event =
    | Append(p: Producer, r: Request, toCall: bool)
    | Signal(p: Producer)
    | SpuriousWake
    | Advance

  predicate HoldsDispatchMutex(pc: Pc) {
    pc.CallEmpty? || pc.SawEmpty?
  }

  predicate Enabled(s: Dispatcher, e: Event) {
    match e
    case Append(p, _, _) => p !in s.unsignalled
    case Signal(p) => p in s.unsignalled && !HoldsDispatchMutex(s.pc)
    case SpuriousWake => s.pc.Asleep?
    case Advance => !s.pc.Asleep? && (s.pc.Choosing? ==> s.call != [] || s.sim != [])
                    && (s.pc.ChoseSim? ==> s.sim != [])
                    && (s.pc.Processing? ==> (if s.pc.fromCall then s.call else s.sim) != [])
  }

  /** The dispatcher thread's next move. */
  function Next(s: Dispatcher): Dispatcher
    requires Enabled(s, Advance)
  {
    match s.pc
    case Top => s.(pc := if s.call == [] then CallEmpty else Draining)
    case CallEmpty => s.(pc := if s.sim == [] then SawEmpty else Draining)
    case SawEmpty => s.(pc := Asleep)
    case Woken => s.(pc := Draining)
    case Draining => s.(pc := if s.call != [] then Choosing else DrainingSim)
    case DrainingSim => s.(pc := if s.sim != [] then Choosing else Top)
    case Choosing =>
      if s.call != [] then s.(pc := Processing(true), handedCall := s.handedCall + [s.call[0]])
      else s.(pc := ChoseSim, tested := |s.enqueuedCall|)
    case ChoseSim => s.(pc := Processing(false), handedSim := s.handedSim + [s.sim[0]])
    case Processing(fromCall) =>
      if fromCall then s.(pc := Draining, call := s.call[1..])
      else s.(pc := Draining, sim := s.sim[1..])
  }

  function Apply(s: Dispatcher, e: Event): Dispatcher
    requires Enabled(s, e)
  {
    match e
    case Append(p, r, toCall) =>
      var s' := s.(unsignalled := s.unsignalled + {p});
      if toCall then s'.(call := s.call + [r], enqueuedCall := s.enqueuedCall + [r])
      else s'.(sim := s.sim + [r], enqueuedSim := s.enqueuedSim + [r])
    case Signal(p) =>
      s.(unsignalled := s.unsignalled - {p}, pc := if s.pc.Asleep? then Woken else s.pc)
    case SpuriousWake => s.(pc := Woken)
    case Advance => Next(s)
  }

  /** The lists and the dispatcher's place, updated in place by the two kinds of thread. */
  class DispatchQueue {
    var call: seq<Request>
    var sim: seq<Request>
    var pc: Pc
    ghost var unsignalled: set<Producer>
    ghost var enqueuedCall: seq<Request>
    ghost var enqueuedSim: seq<Request>
    ghost var handedCall: seq<Request>
    ghost var handedSim: seq<Request>
    ghost var tested: nat

    ghost function View(): Dispatcher
      reads this
    {
      Dispatcher(call, sim, pc, unsignalled, enqueuedCall, enqueuedSim, handedCall, handedSim, tested)
    }

    constructor ()
      ensures View() == INIT
    {
      call, sim, pc := [], [], Top;
      unsignalled, enqueuedCall, enqueuedSim, handedCall, handedSim, tested := {}, [], [], [], [], 0;
    }

    method AddTail(ghost p: Producer, r: Request, toCall: bool)
      requires Enabled(View(), Append(p, r, toCall))
      modifies this
      ensures View() == Apply(old(View()), Append(p, r, toCall))
    {
      unsignalled := unsignalled + {p};
      if toCall {
        call, enqueuedCall := call + [r], enqueuedCall + [r];
      } else {
        sim, enqueuedSim := sim + [r], enqueuedSim + [r];
      }
    }

    method CondSignal(ghost p: Producer)
      requires Enabled(View(), Signal(p))
      modifies this
      ensures View() == Apply(old(View()), Signal(p))
    {
      unsignalled := unsignalled - {p};
      if pc == Asleep {
        pc := Woken;
      }
    }

    /** One step of the dispatcher's loop; `picked` is the request it hands over, if it does. */
    method Step() returns (picked: seq<Request>)
      requires Enabled(View(), Advance)
      modifies this
      ensures View() == Next(old(View()))
      ensures handedCall + handedSim == old(handedCall) + picked + old(handedSim)
           || handedCall + handedSim == old(handedCall) + old(handedSim) + picked
    {
      picked := [];
      match pc {
        case Top => pc := if call == [] then CallEmpty else Draining;
        case CallEmpty => pc := if sim == [] then SawEmpty else Draining;
        case SawEmpty => pc := Asleep;
        case Woken => pc := Draining;
        case Draining => pc := if call != [] then Choosing else DrainingSim;
        case DrainingSim => pc := if sim != [] then Choosing else Top;
        case Choosing =>
          if call != [] {
            picked, pc := [call[0]], Processing(true);
            handedCall := handedCall + picked;
          } else {
            pc, tested := ChoseSim, |enqueuedCall|;
          }
        case ChoseSim =>
          picked, pc := [sim[0]], Processing(false);
          handedSim := handedSim + picked;
        case Processing(fromCall) =>
          pc := Draining;
          if fromCall {
            call := call[1..];
          } else {
            sim := sim[1..];
          }
      }
    }
  }

  const INIT := Dispatcher([], [], Top, {}, [], [], [], [], 0)

  ghost predicate Reaches(s: Dispatcher, es: seq<Event>, t: Dispatcher)
    decreases |es|
  {
    if es == [] then s == t
    else Enabled(s, es[0]) && Reaches(Apply(s, es[0]), es[1..], t)
  }

  // ---------- safety ----------

  /** The call requests listed and not yet handed to processRequest. */
  function WaitingCalls(s: Dispatcher): seq<Request> {
    if s.pc == Processing(true) && s.call != [] then s.call[1..] else s.call
  }

  function WaitingSims(s: Dispatcher): seq<Request> {
    if s.pc == Processing(false) && s.sim != [] then s.sim[1..] else s.sim
  }

  /** The dispatcher has read an empty list and is on its way to sleep, or sleeps already, and what
      it has read is out of date. */
  predicate Overlooked(s: Dispatcher) {
    match s.pc
    case CallEmpty => s.call != []
    case SawEmpty => s.call != [] || s.sim != []
    case Asleep => s.call != [] || s.sim != []
    case _ => false
  }

  predicate Inv(s: Dispatcher) {
    && s.enqueuedCall == s.handedCall + WaitingCalls(s)
    && s.enqueuedSim == s.handedSim + WaitingSims(s)
    && (s.pc == Processing(true) ==> s.call != [])
    && (s.pc == Processing(false) ==> s.sim != [])
    && (s.pc == Choosing ==> s.call != [] || s.sim != [])
    && (s.pc == ChoseSim ==>
          s.sim != [] && s.tested <= |s.enqueuedCall| && s.handedCall == s.enqueuedCall[..s.tested])
    && (Overlooked(s) ==> s.unsignalled != {})
  }

  lemma AppendKeepsInv(s: Dispatcher, p: Producer, r: Request, toCall: bool)
    requires Inv(s) && p !in s.unsignalled
    ensures Inv(Apply(s, Append(p, r, toCall)))
  {
    var s' := Apply(s, Append(p, r, toCall));
    assert p in s'.unsignalled;
    assert WaitingCalls(s') == if toCall then WaitingCalls(s) + [r] else WaitingCalls(s);
    assert WaitingSims(s') == if toCall then WaitingSims(s) else WaitingSims(s) + [r];
  }

  lemma SimIsHanded(s: Dispatcher)
    requires Inv(s) && Enabled(s, Advance) && s.pc.ChoseSim?
    ensures Inv(Next(s))
  {
    assert s.sim == [s.sim[0]] + s.sim[1..];
  }

  lemma CallIsHanded(s: Dispatcher)
    requires Inv(s) && Enabled(s, Advance) && s.pc.Choosing? && s.call != []
    ensures Inv(Next(s))
  {
    assert s.call == [s.call[0]] + s.call[1..];
  }

  lemma ChoiceKeepsInv(s: Dispatcher)
    requires Inv(s) && Enabled(s, Advance) && (s.pc.Choosing? || s.pc.ChoseSim?)
    ensures Inv(Next(s))
  {
    if s.pc.ChoseSim? {
      SimIsHanded(s);
    } else if s.call != [] {
      CallIsHanded(s);
    } else {
      assert s.enqueuedCall[..|s.enqueuedCall|] == s.handedCall;
    }
  }

  lemma AdvanceKeepsInv(s: Dispatcher)
    requires Inv(s) && Enabled(s, Advance)
    ensures Inv(Next(s))
  {
    if s.pc.Choosing? || s.pc.ChoseSim? {
      ChoiceKeepsInv(s);
    }
  }

  lemma StepKeepsInv(s: Dispatcher, e: Event)
    requires Inv(s) && Enabled(s, e)
    ensures Inv(Apply(s, e))
  {
    match e
    case Append(p, r, toCall) => AppendKeepsInv(s, p, r, toCall);
    case Advance => AdvanceKeepsInv(s);
    case _ =>
  }

  lemma {:induction false} RunKeepsInv(s: Dispatcher, es: seq<Event>, t: Dispatcher)
    requires Inv(s) && Reaches(s, es, t)
    ensures Inv(t)
    decreases |es|
  {
    if es != [] {
      StepKeepsInv(s, es[0]);
      RunKeepsInv(Apply(s, es[0]), es[1..], t);
    }
  }

  /** No lost wake-up: whenever the dispatcher sleeps over a non-empty list, a producer has appended
      and not yet signalled, and its signal will find the mutex free and wake the dispatcher. */
  lemma NoLostWakeup(es: seq<Event>, t: Dispatcher)
    requires Reaches(INIT, es, t) && t.pc.Asleep? && (t.call != [] || t.sim != [])
    ensures exists p :: p in t.unsignalled && Enabled(t, Signal(p)) && Apply(t, Signal(p)).pc == Woken
  {
    RunKeepsInv(INIT, es, t);
    var p :| p in t.unsignalled;
    assert Enabled(t, Signal(p));
  }

  /** Exactly once and in order, for each list, over every run. */
  lemma ExactlyOnceInOrder(es: seq<Event>, t: Dispatcher)
    requires Reaches(INIT, es, t)
    ensures t.handedCall + WaitingCalls(t) == t.enqueuedCall
    ensures t.handedSim + WaitingSims(t) == t.enqueuedSim
  {
    RunKeepsInv(INIT, es, t);
  }

  /** Priority: a SIM request is handed over only when every call request enqueued by the time the call
      list was tested has been; those enqueued between the test and the pick are overtaken. */
  lemma CallsGoFirst(es: seq<Event>, t: Dispatcher, e: Event)
    requires Reaches(INIT, es, t) && Enabled(t, e)
    requires Apply(t, e).handedSim != t.handedSim
    ensures t.tested <= |t.enqueuedCall| && t.handedCall == t.enqueuedCall[..t.tested] && t.sim != []
    ensures Apply(t, e).handedSim == t.handedSim + [t.sim[0]]
    ensures t.handedCall == t.enqueuedCall <==> t.call == []
  {
    RunKeepsInv(INIT, es, t);
  }

  /** At the test itself no call is left behind. */
  lemma TestSeesAllCalls(es: seq<Event>, t: Dispatcher)
    requires Reaches(INIT, es, t) && t.pc == Choosing && Enabled(t, Advance)
    ensures Next(t).pc == ChoseSim <==> t.handedCall == t.enqueuedCall
    ensures Next(t).pc == ChoseSim ==> Next(t).tested == |t.enqueuedCall|
  {
    RunKeepsInv(INIT, es, t);
  }

  // ---------- every request is picked ----------

  /** How far the dispatcher is from its next choice, while something is listed. */
  function Rank(s: Dispatcher): nat {
    match s.pc
    case ChoseSim => 1
    case Choosing => 2
    case DrainingSim => if s.sim != [] then 3 else 10
    case Draining => 4
    case Processing(_) => 5
    case Woken => 5
    case Asleep => 6
    case SawEmpty => 7
    case CallEmpty => 8
    case Top => 9
  }

  /** The k-th call request: bounded by the calls before it, and by a SIM request chosen already. */
  function CallDistance(s: Dispatcher, k: nat): int {
    4 * (k + 1 - |s.handedCall|) + if s.pc.ChoseSim? then 6 else Rank(s)
  }

  /** The k-th SIM request: every call listed goes before it. */
  function SimDistance(s: Dispatcher, k: nat): int {
    5 * (k + 1 - |s.handedSim|) + 5 * (|s.enqueuedCall| - |s.handedCall|) + Rank(s)
  }

  /** The step moves the dispatcher: its own step, or a wake-up it receives. */
  predicate Moves(s: Dispatcher, e: Event) {
    e.Advance? || e.SpuriousWake? || (e.Signal? && s.pc.Asleep?)
  }

  ghost function Moving(s: Dispatcher, es: seq<Event>, t: Dispatcher): nat
    requires Reaches(s, es, t)
    decreases |es|
  {
    if es == [] then 0
    else (if Moves(s, es[0]) then 1 else 0) + Moving(Apply(s, es[0]), es[1..], t)
  }

  function CallAppends(es: seq<Event>): nat {
    if es == [] then 0
    else (if es[0].Append? && es[0].toCall then 1 else 0) + CallAppends(es[1..])
  }

  lemma CallComesCloser(s: Dispatcher, e: Event, k: nat)
    requires Inv(s) && Enabled(s, e) && |s.handedCall| <= k < |s.enqueuedCall|
    ensures CallDistance(Apply(s, e), k) <= CallDistance(s, k)
    ensures Moves(s, e) ==> CallDistance(Apply(s, e), k) < CallDistance(s, k)
  {
    assert WaitingCalls(s) != [] && s.call != [];
  }

  lemma SimComesCloser(s: Dispatcher, e: Event, k: nat)
    requires Inv(s) && Enabled(s, e) && |s.handedSim| <= k < |s.enqueuedSim|
    ensures SimDistance(Apply(s, e), k) <=
      SimDistance(s, k) + (if e.Append? && e.toCall then 5 else 0) - (if Moves(s, e) then 1 else 0)
  {
    assert WaitingSims(s) != [] && s.sim != [];
    assert |s.enqueuedCall| >= |s.handedCall|;
  }

  /** However producers interleave, the k-th call request has been handed over once the dispatcher
      has moved `CallDistance` times. */
  lemma {:induction false} CallIsPicked(s: Dispatcher, es: seq<Event>, t: Dispatcher, k: nat)
    requires Inv(s) && Reaches(s, es, t) && k < |s.enqueuedCall|
    requires |s.handedCall| <= k ==> Moving(s, es, t) >= CallDistance(s, k)
    ensures |t.handedCall| > k && t.handedCall[k] == s.enqueuedCall[k]
    decreases |es|
  {
    if |s.handedCall| <= k {
      assert CallDistance(s, k) > 0;
    }
    if es != [] {
      if |s.handedCall| <= k {
        CallComesCloser(s, es[0], k);
      }
      StepKeepsInv(s, es[0]);
      CallIsPicked(Apply(s, es[0]), es[1..], t, k);
    }
  }

  /** A SIM request waits for the calls as well: each call enqueued meanwhile costs five moves. */
  lemma {:induction false} SimIsPicked(s: Dispatcher, es: seq<Event>, t: Dispatcher, k: nat)
    requires Inv(s) && Reaches(s, es, t) && k < |s.enqueuedSim|
    requires |s.handedSim| <= k ==> Moving(s, es, t) >= SimDistance(s, k) + 5 * CallAppends(es)
    ensures |t.handedSim| > k && t.handedSim[k] == s.enqueuedSim[k]
    decreases |es|
  {
    if |s.handedSim| <= k {
      assert SimDistance(s, k) > 0;
    }
    if es != [] {
      if |s.handedSim| <= k {
        SimComesCloser(s, es[0], k);
      }
      StepKeepsInv(s, es[0]);
      SimIsPicked(Apply(s, es[0]), es[1..], t, k);
    }
  }

  /** While anything is listed the dispatcher can move, alone or by a signal that is on its way. */
  lemma DispatcherIsNeverStuck(es: seq<Event>, t: Dispatcher)
    requires Reaches(INIT, es, t) && (t.call != [] || t.sim != [])
    ensures exists e :: Enabled(t, e) && Moves(t, e) && e != SpuriousWake
  {
    RunKeepsInv(INIT, es, t);
    if t.pc.Asleep? {
      NoLostWakeup(es, t);
    } else {
      assert Enabled(t, Advance);
    }
  }
}
