/** Deadlines and the sorted timer list of the event loop (libril/ril_event.cpp), as values: the
    specification that EventLoop implements with linked nodes. */
module Scheduler {

  // ---------- struct timeval ----------

  const MICROS := 1000000

  /** A normalised struct timeval. */
  datatype TimeVal = TimeVal(sec: int, usec: int)

  predicate Normal(t: TimeVal) {
    0 <= t.usec < MICROS
  }

  function Micros(t: TimeVal): int {
    t.sec * MICROS + t.usec
  }

  /** timeradd */
  function TimerAdd(a: TimeVal, b: TimeVal): TimeVal {
    if a.usec + b.usec >= MICROS then TimeVal(a.sec + b.sec + 1, a.usec + b.usec - MICROS)
    else TimeVal(a.sec + b.sec, a.usec + b.usec)
  }

  /** timercmp with `<` */
  predicate Earlier(a: TimeVal, b: TimeVal) {
    if a.sec == b.sec then a.usec < b.usec else a.sec < b.sec
  }

  /** timersub */
  function TimerSub(a: TimeVal, b: TimeVal): TimeVal {
    if a.usec < b.usec then TimeVal(a.sec - b.sec - 1, a.usec - b.usec + MICROS)
    else TimeVal(a.sec - b.sec, a.usec - b.usec)
  }

  /** On normalised values the three macros are addition, comparison and subtraction of
      microseconds, and their results are normalised again. */
  lemma TimeValIsMicros(a: TimeVal, b: TimeVal)
    requires Normal(a) && Normal(b)
    ensures Normal(TimerAdd(a, b)) && Micros(TimerAdd(a, b)) == Micros(a) + Micros(b)
    ensures Earlier(a, b) <==> Micros(a) < Micros(b)
    ensures Normal(TimerSub(a, b)) && Micros(TimerSub(a, b)) == Micros(a) - Micros(b)
  {
  }

  // ---------- the sorted list ----------

  datatype Timer = Timer(id: nat, deadline: int)

  /** Where ril_timer_add puts a new deadline: before the first timer that is not earlier. */
  function InsertionPoint(timers: seq<Timer>, deadline: int): (k: nat)
    ensures k <= |timers|
    ensures forall i :: 0 <= i < k ==> timers[i].deadline < deadline
    ensures k < |timers| ==> timers[k].deadline >= deadline
  {
    if timers == [] || timers[0].deadline >= deadline then 0
    else 1 + InsertionPoint(timers[1..], deadline)
  }

  function Insert(timers: seq<Timer>, t: Timer): seq<Timer> {
    var k := InsertionPoint(timers, t.deadline);
    timers[..k] + [t] + timers[k..]
  }

  /** How many timers at the front have expired. */
  function ExpiredCount(timers: seq<Timer>, now: int): (k: nat)
    ensures k <= |timers|
    ensures forall i :: 0 <= i < k ==> timers[i].deadline < now
    ensures k < |timers| ==> timers[k].deadline >= now
  {
    if timers == [] || timers[0].deadline >= now then 0
    else 1 + ExpiredCount(timers[1..], now)
  }

  lemma {:induction false} InsertionPointIs(timers: seq<Timer>, deadline: int, k: nat)
    requires k <= |timers| && forall i :: 0 <= i < k ==> timers[i].deadline < deadline
    requires k < |timers| ==> timers[k].deadline >= deadline
    ensures InsertionPoint(timers, deadline) == k && ExpiredCount(timers, deadline) == k
  {
    if k > 0 {
      InsertionPointIs(timers[1..], deadline, k - 1);
    }
  }

  predicate Sorted(timers: seq<Timer>) {
    forall i, j :: 0 <= i <= j < |timers| ==> timers[i].deadline <= timers[j].deadline
  }

  lemma InsertKeepsSorted(timers: seq<Timer>, t: Timer)
    requires Sorted(timers)
    ensures Sorted(Insert(timers, t))
  {
    var k := InsertionPoint(timers, t.deadline);
    if k < |timers| {
      assert timers[k].deadline >= t.deadline;
    }
  }

  lemma InsertAddsOne(timers: seq<Timer>, t: Timer)
    ensures multiset(Insert(timers, t)) == multiset(timers) + multiset{t}
  {
    var k := InsertionPoint(timers, t.deadline);
    assert timers == timers[..k] + timers[k..];
  }

  // ---------- whole runs of the event loop ----------

  datatype Firing = Firing(timer: Timer, at: int)

  /** `added` and `fired` are histories. */
  datatype State = State(clock: int, timers: seq<Timer>, added: multiset<Timer>, fired: seq<Firing>)

  datatype Event =
    | Add(id: nat, now: int, relative: nat)
    | Turn(now: int)

  /** The clock is monotonic, and is read while the list mutex is held. */
  predicate Enabled(s: State, e: Event) {
    s.clock <= e.now
  }

  function Fire(timers: seq<Timer>, now: int): (r: seq<Firing>)
    ensures |r| == |timers|
    ensures forall i :: 0 <= i < |r| ==> r[i] == Firing(timers[i], now)
  {
    seq(|timers|, i requires 0 <= i < |timers| => Firing(timers[i], now))
  }

  /** Turn is processTimeouts followed by firePending. */
  function Apply(s: State, e: Event): State {
    match e
    case Add(id, now, relative) =>
      var t := Timer(id, now + relative);
      s.(clock := now, timers := Insert(s.timers, t), added := s.added + multiset{t})
    case Turn(now) =>
      var k := ExpiredCount(s.timers, now);
      s.(clock := now, timers := s.timers[k..], fired := s.fired + Fire(s.timers[..k], now))
  }

  ghost predicate Reaches(s: State, es: seq<Event>, t: State)
    decreases |es|
  {
    if es == [] then s == t
    else Enabled(s, es[0]) && Reaches(Apply(s, es[0]), es[1..], t)
  }

  function TimersOf(fired: seq<Firing>): (r: seq<Timer>)
    ensures |r| == |fired|
    ensures forall i :: 0 <= i < |r| ==> r[i] == fired[i].timer
  {
    seq(|fired|, i requires 0 <= i < |fired| => fired[i].timer)
  }

  /** Nothing is lost and nothing fires twice. */
  predicate Conserved(s: State) {
    multiset(TimersOf(s.fired) + s.timers) == s.added
  }

  predicate Ordered(s: State) {
    && Sorted(s.timers)
    && (forall i :: 0 <= i < |s.fired| ==> s.fired[i].timer.deadline < s.fired[i].at <= s.clock)
    && (forall i, j :: 0 <= i <= j < |s.fired| ==>
          s.fired[i].timer.deadline <= s.fired[j].timer.deadline)
    && (forall i, j :: 0 <= i < |s.fired| && 0 <= j < |s.timers| ==>
          s.fired[i].timer.deadline <= s.timers[j].deadline)
    && (forall i :: 0 <= i < |s.fired| ==> s.fired[i].timer.deadline < s.clock)
  }

  lemma AddKeepsConserved(s: State, t: Timer)
    requires Conserved(s)
    ensures multiset(TimersOf(s.fired) + Insert(s.timers, t)) == s.added + multiset{t}
  {
    InsertAddsOne(s.timers, t);
  }

  lemma TurnKeepsConserved(s: State, now: int)
    requires Conserved(s)
    ensures Conserved(Apply(s, Turn(now)))
  {
    var k := ExpiredCount(s.timers, now);
    var fired := s.fired + Fire(s.timers[..k], now);
    assert TimersOf(fired) + s.timers[k..] == TimersOf(s.fired) + s.timers;
  }

  lemma InsertAt(timers: seq<Timer>, t: Timer, j: nat)
    requires j <= |timers|
    ensures var k := InsertionPoint(timers, t.deadline);
      Insert(timers, t)[j] == if j < k then timers[j] else if j == k then t else timers[j - 1]
  {
  }

  lemma InsertAfter(timers: seq<Timer>, t: Timer, bound: int)
    requires t.deadline >= bound && forall j :: 0 <= j < |timers| ==> timers[j].deadline >= bound
    ensures forall j :: 0 <= j < |timers| + 1 ==> Insert(timers, t)[j].deadline >= bound
  {
    forall j | 0 <= j < |timers| + 1 ensures Insert(timers, t)[j].deadline >= bound {
      InsertAt(timers, t, j);
    }
  }

  lemma AddKeepsOrdered(s: State, e: Event)
    requires Ordered(s) && Enabled(s, e) && e.Add?
    ensures Ordered(Apply(s, e))
  {
    var t := Timer(e.id, e.now + e.relative);
    InsertKeepsSorted(s.timers, t);
    forall i, j | 0 <= i < |s.fired| && 0 <= j < |Insert(s.timers, t)|
      ensures s.fired[i].timer.deadline <= Insert(s.timers, t)[j].deadline
    {
      InsertAfter(s.timers, t, s.fired[i].timer.deadline);
    }
  }

  lemma TurnKeepsOrdered(s: State, e: Event)
    requires Ordered(s) && Enabled(s, e) && e.Turn?
    ensures Ordered(Apply(s, e))
  {
    var n := Apply(s, e);
    forall i | 0 <= i < |n.fired|
      ensures n.fired[i] == if i < |s.fired| then s.fired[i] else Firing(s.timers[i - |s.fired|], e.now)
    {
    }
    FiredInOrder(s, e);
    assert forall i, j :: 0 <= i < |n.fired| && 0 <= j < |n.timers| ==>
      n.fired[i].timer.deadline <= n.timers[j].deadline;
  }

  lemma FiredInOrder(s: State, e: Event)
    requires Ordered(s) && Enabled(s, e) && e.Turn?
    ensures var fired := Apply(s, e).fired;
      forall i, j :: 0 <= i <= j < |fired| ==> fired[i].timer.deadline <= fired[j].timer.deadline
  {
  }

  lemma {:induction false} RunKeepsInv(s: State, es: seq<Event>, t: State)
    requires Conserved(s) && Ordered(s) && Reaches(s, es, t)
    ensures Conserved(t) && Ordered(t)
    decreases |es|
  {
    if es != [] {
      if es[0].Add? {
        AddKeepsConserved(s, Timer(es[0].id, es[0].now + es[0].relative));
        AddKeepsOrdered(s, es[0]);
      } else {
        TurnKeepsConserved(s, es[0].now);
        TurnKeepsOrdered(s, es[0]);
      }
      RunKeepsInv(Apply(s, es[0]), es[1..], t);
    }
  }

  const INIT := State(0, [], multiset{}, [])

  /** Over every run: the list stays sorted, a timer fires only after its deadline, timers fire in
      the order of their deadlines -- across turns as well as within one -- and the timers fired and
      those still listed are together the timers added, each as often as it was added. */
  lemma TimersFireInOrder(es: seq<Event>, t: State)
    requires Reaches(INIT, es, t)
    ensures Sorted(t.timers)
    ensures forall i :: 0 <= i < |t.fired| ==> t.fired[i].timer.deadline < t.fired[i].at
    ensures forall i, j :: 0 <= i <= j < |t.fired| ==>
      t.fired[i].timer.deadline <= t.fired[j].timer.deadline
    ensures multiset(TimersOf(t.fired) + t.timers) == t.added
  {
    RunKeepsInv(INIT, es, t);
  }

  /** A turn leaves no expired timer behind. */
  lemma TurnFiresAllExpired(s: State, now: int)
    requires Sorted(s.timers)
    ensures var rest := Apply(s, Turn(now)).timers;
      forall i :: 0 <= i < |rest| ==> rest[i].deadline >= now
  {
    var k := ExpiredCount(s.timers, now);
    assert forall i :: 0 <= i < |s.timers[k..]| ==> s.timers[k..][i] == s.timers[k + i];
  }

  /** Timers with the same deadline: the one added last goes first. */
  lemma TiesNewestFirst(timers: seq<Timer>, t: Timer, i: nat)
    requires i < |timers| && timers[i].deadline == t.deadline && Sorted(timers)
    ensures var k := InsertionPoint(timers, t.deadline);
      k <= i && Insert(timers, t)[k] == t && Insert(timers, t)[i + 1] == timers[i]
  {
  }
}
