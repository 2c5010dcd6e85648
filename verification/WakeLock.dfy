/** The counted wake lock with its cancellable release timer (libril/ril.cpp, callback versions from
    13 on). The timers live in the event loop's lists, next to timers of other users. */
module WakeLock {
  import opened Options
  import opened Scheduler

  /** TIMEVAL_WAKE_TIMEOUT, in microseconds. */
  const WAKE_TIMEOUT := 200000

  /** `armed` holds the wake timeouts whose userParam is still NULL; `last` is
      s_last_wake_timeout_info; `lastGrab` is history: when the lock was last grabbed. */
  datatype Locks = Locks(clock: int, held: bool, count: nat, timers: seq<Timer>, pending: seq<Timer>,
                         armed: set<nat>, last: Option<nat>, lastGrab: int, nextId: nat)

  datatype Step =
    | Grab(now: int)              // grabPartialWakeLock
    | GrabFails                   // ... when the timeout cannot be allocated
    | Release                     // releaseWakeLock
    | Request(now: int, relative: nat)  // RIL_requestTimedCallback of some other user
    | Expire(now: int)            // processTimeouts of the event loop
    | FireNext                    // firePending, one userTimerCallback at a time

  function LastAsSet(s: Locks): set<nat> {
    if s.last.Some? then {s.last.value} else {}
  }

  predicate Possible(s: Locks, e: Step) {
    match e
    case Grab(now) => s.clock <= now
    case Request(now, _) => s.clock <= now
    case Expire(now) => s.clock <= now
    case FireNext => s.pending != []
    case _ => true
  }

  /** A grab: its timeout is the last one from now on, and the one before is cancelled. */
  function Grabbed(s: Locks, now: int, timers: seq<Timer>): Locks {
    s.(clock := now, held := true, count := s.count + 1, timers := timers,
       armed := s.armed - LastAsSet(s) + {s.nextId},
       last := Some(s.nextId), lastGrab := now, nextId := s.nextId + 1)
  }

  function Requested(s: Locks, now: int, timers: seq<Timer>): Locks {
    s.(clock := now, timers := timers, nextId := s.nextId + 1)
  }

  function Next(s: Locks, e: Step): Locks
    requires Possible(s, e)
  {
    match e
    case Grab(now) => Grabbed(s, now, Insert(s.timers, Timer(s.nextId, now + WAKE_TIMEOUT)))
    case GrabFails => s.(held := false)
    case Release =>
      if s.count > 1 then s.(count := s.count - 1)
      else s.(count := 0, held := false, armed := s.armed - LastAsSet(s))
    case Request(now, relative) => Requested(s, now, Insert(s.timers, Timer(s.nextId, now + relative)))
    case Expire(now) =>
      var k := ExpiredCount(s.timers, now);
      s.(clock := now, timers := s.timers[k..], pending := s.pending + s.timers[..k])
    case FireNext =>
      var t := s.pending[0];
      var u := if t.id in s.armed then s.(count := 0, held := false) else s;
      u.(pending := s.pending[1..], armed := s.armed - {t.id},
         last := if s.last == Some(t.id) then None else s.last)
  }

  function Members(timers: seq<Timer>): set<Timer> {
    set t | t in timers
  }

  function Listed(s: Locks): set<Timer> {
    Members(s.timers) + Members(s.pending)
  }

  /** What every step but a failed allocation keeps. */
  ghost predicate Inv(s: Locks) {
    Sorted(s.timers) && Agreement(s)
  }

  /** ... apart from the order of the list. */
  ghost predicate Agreement(s: Locks) {
    && LockAgrees(s)
    && LastIsListed(s)
    && (forall t :: t in Listed(s) ==> t.id < s.nextId)
    && (forall t :: t in s.pending ==> t.deadline < s.clock)
  }

  /** Held iff counted iff exactly one release is armed, the one for the last grab. */
  predicate LockAgrees(s: Locks) {
    && (s.held <==> s.count > 0)
    && (s.count > 0 ==> s.last.Some?)
    && s.armed == (if s.count > 0 then LastAsSet(s) else {})
  }

  /** s_last_wake_timeout_info never dangles, and its deadline is that of the last grab. */
  predicate LastIsListed(s: Locks) {
    s.last.Some? ==>
      && Timer(s.last.value, s.lastGrab + WAKE_TIMEOUT) in Listed(s)
      && forall t :: t in Listed(s) && t.id == s.last.value ==> t.deadline == s.lastGrab + WAKE_TIMEOUT
  }

  lemma InsertedMembers(timers: seq<Timer>, t: Timer)
    ensures Members(Insert(timers, t)) == Members(timers) + {t}
  {
    var k := InsertionPoint(timers, t.deadline);
    assert timers == timers[..k] + timers[k..];
  }

  lemma ExpiredMembers(s: Locks, now: int)
    requires s.clock <= now
    ensures Listed(Next(s, Expire(now))) == Listed(s)
    ensures forall u :: u in Next(s, Expire(now)).pending ==> u in s.pending || u.deadline < now
  {
    var k := ExpiredCount(s.timers, now);
    assert s.timers == s.timers[..k] + s.timers[k..];
  }

  lemma OnlyLaterRemain(s: Locks, now: int)
    requires s.clock <= now && Sorted(s.timers)
    ensures forall u :: u in Next(s, Expire(now)).timers ==> u.deadline >= now
  {
  }

  lemma FiredMembers(s: Locks)
    requires s.pending != []
    ensures Listed(s) == Listed(Next(s, FireNext)) + {s.pending[0]}
    ensures forall t :: t in Next(s, FireNext).pending ==> t in s.pending
  {
    assert s.pending == [s.pending[0]] + s.pending[1..];
  }

  /** A list with a new timer of somebody else in it. */
  lemma RequestedAgreement(s: Locks, now: int, t: Timer, timers: seq<Timer>, n: Locks)
    requires Agreement(s) && s.clock <= now && t.id == s.nextId && n == Requested(s, now, timers)
    requires Members(timers) == Members(s.timers) + {t}
    ensures Agreement(n)
  {
    assert Listed(n) == Listed(s) + {t};
  }

  /** ... or with the timeout of a grab. */
  lemma GrabbedAgreement(s: Locks, now: int, t: Timer, timers: seq<Timer>, n: Locks)
    requires Agreement(s) && s.clock <= now && t == Timer(s.nextId, now + WAKE_TIMEOUT) && n == Grabbed(s, now, timers)
    requires Members(timers) == Members(s.timers) + {t}
    ensures Agreement(n)
  {
    assert Listed(n) == Listed(s) + {t};
    assert s.armed - LastAsSet(s) == {};
  }

  lemma GrabKeepsSorted(s: Locks, now: int)
    requires Sorted(s.timers) && s.clock <= now
    ensures Sorted(Next(s, Grab(now)).timers)
  {
    InsertKeepsSorted(s.timers, Timer(s.nextId, now + WAKE_TIMEOUT));
  }

  lemma RequestKeepsSorted(s: Locks, now: int, relative: nat)
    requires Sorted(s.timers) && s.clock <= now
    ensures Sorted(Next(s, Request(now, relative)).timers)
  {
    InsertKeepsSorted(s.timers, Timer(s.nextId, now + relative));
  }

  lemma StepKeepsSorted(s: Locks, e: Step)
    requires Sorted(s.timers) && Possible(s, e)
    ensures Sorted(Next(s, e).timers)
  {
    match e
    case Grab(now) => GrabKeepsSorted(s, now);
    case Request(now, relative) => RequestKeepsSorted(s, now, relative);
    case _ =>
  }

  lemma GrabKeepsAgreement(s: Locks, now: int, n: Locks)
    requires Agreement(s) && s.clock <= now && n == Next(s, Grab(now))
    ensures Agreement(n)
  {
    var t := Timer(s.nextId, now + WAKE_TIMEOUT);
    InsertedMembers(s.timers, t);
    GrabbedAgreement(s, now, t, n.timers, n);
  }

  lemma RequestKeepsAgreement(s: Locks, now: int, relative: nat, n: Locks)
    requires Agreement(s) && s.clock <= now && n == Next(s, Request(now, relative))
    ensures Agreement(n)
  {
    var t := Timer(s.nextId, now + relative);
    InsertedMembers(s.timers, t);
    RequestedAgreement(s, now, t, n.timers, n);
  }

  lemma ExpiryKeepsAgreement(s: Locks, now: int)
    requires Agreement(s) && s.clock <= now
    ensures Agreement(Next(s, Expire(now)))
  {
    ExpiredMembers(s, now);
  }

  lemma FiringKeepsAgreement(s: Locks)
    requires Agreement(s) && s.pending != []
    ensures Agreement(Next(s, FireNext))
  {
    FiredMembers(s);
  }

  lemma ReleaseKeepsAgreement(s: Locks)
    requires Agreement(s)
    ensures Agreement(Next(s, Release))
  {
    assert Listed(Next(s, Release)) == Listed(s);
  }

  lemma StepKeepsAgreement(s: Locks, e: Step)
    requires Agreement(s) && Possible(s, e) && !e.GrabFails?
    ensures Agreement(Next(s, e))
  {
    match e
    case Grab(now) => GrabKeepsAgreement(s, now, Next(s, e));
    case Request(now, relative) => RequestKeepsAgreement(s, now, relative, Next(s, e));
    case Expire(now) => ExpiryKeepsAgreement(s, now);
    case FireNext => FiringKeepsAgreement(s);
    case Release => ReleaseKeepsAgreement(s);
  }

  lemma StepKeepsInv(s: Locks, e: Step)
    requires Inv(s) && Possible(s, e) && !e.GrabFails?
    ensures Inv(Next(s, e))
  {
    StepKeepsSorted(s, e);
    StepKeepsAgreement(s, e);
  }

  /** A failed allocation drops the lock whatever the count: harmless exactly when the lock was free. */
  lemma FailedGrabKeepsInv(s: Locks)
    requires Inv(s)
    ensures Inv(Next(s, GrabFails)) <==> s.count == 0
  {
  }

  ghost predicate Run(s: Locks, es: seq<Step>, t: Locks)
    decreases |es|
  {
    if es == [] then s == t
    else Possible(s, es[0]) && !es[0].GrabFails? && Run(Next(s, es[0]), es[1..], t)
  }

  lemma {:induction false} RunKeepsInv(s: Locks, es: seq<Step>, t: Locks)
    requires Inv(s) && Run(s, es, t)
    ensures Inv(t)
    decreases |es|
  {
    if es != [] {
      StepKeepsInv(s, es[0]);
      RunKeepsInv(Next(s, es[0]), es[1..], t);
    }
  }

  const START := Locks(0, false, 0, [], [], {}, None, 0, 0)

  /** In every run: the lock is held iff the count is positive iff exactly one timeout is not
      cancelled; that one is the last, is still listed, and is due 200 ms after the last grab. */
  lemma HeldLockIsArmed(es: seq<Step>, t: Locks)
    requires Run(START, es, t)
    ensures t.held <==> t.count > 0
    ensures t.held <==> |t.armed| == 1
    ensures t.held ==> t.last.Some? && t.armed == {t.last.value}
    ensures t.held ==>
      var release := Timer(t.last.value, t.lastGrab + WAKE_TIMEOUT);
      release in t.timers || release in t.pending
  {
    RunKeepsInv(START, es, t);
    AgreementMeans(t);
  }

  lemma AgreementMeans(t: Locks)
    requires LockAgrees(t) && LastIsListed(t)
    ensures t.held <==> |t.armed| == 1
    ensures t.held ==> t.last.Some? && t.armed == {t.last.value}
    ensures t.held ==>
      var release := Timer(t.last.value, t.lastGrab + WAKE_TIMEOUT);
      release in t.timers || release in t.pending
  {
    if t.held {
      assert Timer(t.last.value, t.lastGrab + WAKE_TIMEOUT) in Listed(t);
    }
  }

  /** The rest of a turn of the event loop: all of firePending. */
  function Drain(s: Locks): (r: Locks)
    ensures r.pending == [] && r.timers == s.timers
    decreases |s.pending|
  {
    if s.pending == [] then s else Drain(Next(s, FireNext))
  }

  lemma {:induction false} DrainReleases(s: Locks)
    requires Inv(s)
    ensures Inv(Drain(s))
    ensures Drain(s).held <==> s.held && forall t :: t in s.pending ==> t.id != s.last.value
    ensures Drain(s).held ==> Drain(s).last == s.last && Drain(s).count == s.count
    decreases |s.pending|
  {
    if s.pending != [] {
      StepKeepsInv(s, FireNext);
      DrainReleases(Next(s, FireNext));
      FiredMembers(s);
      assert s.pending == [s.pending[0]] + s.pending[1..];
    }
  }

  lemma OverdueIff(n: Locks)
    requires Agreement(n) && forall t :: t in n.timers ==> t.deadline >= n.clock
    ensures n.held ==>
      ((forall t :: t in n.pending ==> t.id != n.last.value) <==> n.clock <= n.lastGrab + WAKE_TIMEOUT)
  {
    if n.held {
      var last := Timer(n.last.value, n.lastGrab + WAKE_TIMEOUT);
      assert last in Listed(n);
      assert forall t :: t in n.pending ==> t in Listed(n);
    }
  }

  /** Whatever the count and however many timers there are, one turn of the event loop releases a
      held lock exactly when more than 200 ms have passed since the last grab. */
  lemma TurnReleasesIffOverdue(s: Locks, now: int)
    requires Inv(s) && s.clock <= now
    ensures Drain(Next(s, Expire(now))).held <==> s.held && now <= s.lastGrab + WAKE_TIMEOUT
  {
    StepKeepsInv(s, Expire(now));
    OnlyLaterRemain(s, now);
    DrainReleases(Next(s, Expire(now)));
    OverdueIff(Next(s, Expire(now)));
  }

  function AfterReleases(s: Locks, n: nat): Locks {
    if n == 0 then s else Next(AfterReleases(s, n - 1), Release)
  }

  /** While no timeout fires, the lock is freed by the last of as many releases as it counts. */
  lemma {:induction false} LastReleaseFrees(s: Locks, n: nat)
    requires Inv(s) && s.held && n <= s.count
    ensures Inv(AfterReleases(s, n)) && AfterReleases(s, n).count == s.count - n
    ensures AfterReleases(s, n).held <==> n < s.count
  {
    if n > 0 {
      LastReleaseFrees(s, n - 1);
      StepKeepsInv(AfterReleases(s, n - 1), Release);
    }
  }

  // ---------- the code ----------

  /** UserCallbackInfo: one timer; `wakes` says that its callback is wakeTimeoutCallback. */
  class UserCallbackInfo {
    const timer: Timer
    const wakes: bool
    var cancelled: bool

    constructor (timer: Timer, wakes: bool)
      ensures this.timer == timer && this.wakes == wakes && !cancelled
    {
      this.timer, this.wakes, this.cancelled := timer, wakes, false;
    }
  }

  function Timers(infos: seq<UserCallbackInfo>): (r: seq<Timer>)
    ensures |r| == |infos| && forall i :: 0 <= i < |r| ==> r[i] == infos[i].timer
  {
    seq(|infos|, i requires 0 <= i < |infos| => infos[i].timer)
  }

  predicate Distinct<T(==)>(s: seq<T>) {
    forall i, j :: 0 <= i < j < |s| ==> s[i] != s[j]
  }

  lemma InsertedDistinct<T>(a: seq<T>, k: nat, x: T, b: seq<T>)
    requires k <= |a| && Distinct(a + b) && x !in a + b
    ensures Distinct((a[..k] + [x] + a[k..]) + b)
    ensures (set i | i in (a[..k] + [x] + a[k..]) + b) == (set i | i in a + b) + {x}
  {
    var c := (a[..k] + [x] + a[k..]) + b;
    var d := a + b;
    assert |c| == |d| + 1 && c[k] == x;
    assert forall i :: 0 <= i < k ==> c[i] == d[i];
    assert forall i :: k < i < |c| ==> c[i] == d[i - 1];
    forall i, j | 0 <= i < j < |c| ensures c[i] != c[j] {
      if i != k && j != k {
        assert d[if i < k then i else i - 1] != d[if j < k then j else j - 1];
      }
    }
    forall i | i in a + b ensures i in c {
      var n :| 0 <= n < |a + b| && (a + b)[n] == i;
      assert c[if n < k then n else n + 1] == i;
    }
  }

  lemma RemovedDistinct<T>(a: seq<T>, b: seq<T>)
    requires b != [] && Distinct(a + b)
    ensures Distinct(a + b[1..])
    ensures (set i | i in a + b[1..]) == (set i | i in a + b) - {b[0]}
  {
    var c := a + b[1..];
    var d := a + b;
    assert |d| == |c| + 1 && d[|a|] == b[0];
    assert forall i :: 0 <= i < |a| ==> c[i] == d[i];
    assert forall i :: |a| <= i < |c| ==> c[i] == d[i + 1];
    forall i, j | 0 <= i < j < |c| ensures c[i] != c[j] {
      assert d[if i < |a| then i else i + 1] != d[if j < |a| then j else j + 1];
    }
    forall i | i in c ensures i in d && i != b[0] {
      var n :| 0 <= n < |c| && c[n] == i;
      assert d[if n < |a| then n else n + 1] == i;
    }
    forall i | i in a + b && i != b[0] ensures i in c {
      var n :| 0 <= n < |a + b| && (a + b)[n] == i;
      assert c[if n < |a| then n else n - 1] == i;
    }
  }

  lemma InsertedTimers(infos: seq<UserCallbackInfo>, k: nat, info: UserCallbackInfo)
    requires k == InsertionPoint(Timers(infos), info.timer.deadline)
    ensures Timers(infos[..k] + [info] + infos[k..]) == Insert(Timers(infos), info.timer)
  {
    var was := Timers(infos);
    assert Timers(infos[..k] + [info] + infos[k..]) == was[..k] + [info.timer] + was[k..];
  }

  lemma GrabIs(s: Locks, n: Locks, now: int)
    requires s.clock <= now && s.nextId !in LastAsSet(s)
    requires n == Locks(now, true, s.count + 1, n.timers, s.pending,
                        s.armed + {s.nextId} - LastAsSet(s), Some(s.nextId), now, s.nextId + 1)
    requires n.timers == Insert(s.timers, Timer(s.nextId, now + WAKE_TIMEOUT))
    ensures n == Next(s, Grab(now))
  {
    assert n.armed == s.armed - LastAsSet(s) + {s.nextId};
  }

  lemma FireIs(s: Locks, n: Locks)
    requires s.pending != []
    requires var (t, fires) := (s.pending[0], s.pending[0].id in s.armed);
      n == Locks(s.clock, s.held && !fires, if fires then 0 else s.count, s.timers, s.pending[1..],
                 s.armed - {t.id}, if s.last == Some(t.id) then None else s.last, s.lastGrab, s.nextId)
    ensures n == Next(s, FireNext)
  {
  }

  class WakeLockState {
    var clock: int
    var held: bool
    var count: nat
    var timers: seq<UserCallbackInfo>
    var pending: seq<UserCallbackInfo>
    var last: UserCallbackInfo?
    var lastGrab: int
    var nextId: nat
    ghost var infos: set<UserCallbackInfo>
    ghost var byId: map<nat, UserCallbackInfo>
    ghost var armed: set<nat>

    /** The ghost fields name what is listed; `armed` is read off the userParam of each timer. */
    ghost predicate Valid()
      reads this, infos
    {
      && Distinct(timers + pending)
      && infos == (set i | i in timers + pending)
      && (forall i :: i in infos ==> i.timer.id in byId && byId[i.timer.id] == i)
      && (forall id :: id in byId ==> id < nextId && byId[id].timer.id == id)
      && (forall i :: i in infos ==> (i.timer.id in armed <==> i.wakes && !i.cancelled))
      && (forall id :: id in armed ==> id in byId && byId[id] in infos)
      && (last != null ==> last in infos && last.wakes)
    }

    ghost function View(): Locks
      reads this
    {
      Locks(clock, held, count, Timers(timers), Timers(pending), armed,
            if last == null then None else Some(last.timer.id), lastGrab, nextId)
    }

    constructor ()
      ensures Valid() && View() == START
    {
      clock, held, count, timers, pending := 0, false, 0, [], [];
      last, lastGrab, nextId := null, 0, 0;
      infos, byId, armed := {}, map[], {};
    }

    /** The loop of ril_timer_add. */
    method FindPosition(deadline: int) returns (k: nat)
      ensures k == InsertionPoint(Timers(timers), deadline)
    {
      k := 0;
      while k < |timers| && timers[k].timer.deadline < deadline
        invariant k <= |timers|
        invariant forall i :: 0 <= i < k ==> timers[i].timer.deadline < deadline
      {
        k := k + 1;
      }
      InsertionPointIs(Timers(timers), deadline, k);
    }

    /** internalRequestTimedCallback: allocates a timer and files it in the sorted list. */
    method RequestTimedCallback(now: int, relative: nat, wakes: bool) returns (info: UserCallbackInfo)
      requires Valid()
      modifies this`timers, this`nextId, this`clock, this`infos, this`byId, this`armed
      ensures Valid() && fresh(info) && info in infos && info.wakes == wakes
      ensures info.timer == Timer(old(nextId), now + relative)
      ensures nextId == old(nextId) + 1 && clock == now
      ensures Timers(timers) == Insert(old(Timers(timers)), info.timer)
      ensures armed == old(armed) + if wakes then {info.timer.id} else {}
    {
      clock := now;
      var k := FindPosition(now + relative);
      info := new UserCallbackInfo(Timer(nextId, now + relative), wakes);
      assert info !in timers + pending;
      InsertedDistinct(timers, k, info, pending);
      InsertedTimers(timers, k, info);
      File(info, k);
    }

    method File(info: UserCallbackInfo, k: nat)
      requires Valid() && k <= |timers| && info.timer.id == nextId && !info.cancelled
      requires Distinct((timers[..k] + [info] + timers[k..]) + pending)
      requires (set i | i in (timers[..k] + [info] + timers[k..]) + pending) == infos + {info}
      modifies this`timers, this`nextId, this`infos, this`byId, this`armed
      ensures Valid() && infos == old(infos) + {info} && nextId == old(nextId) + 1
      ensures timers == old(timers[..k] + [info] + timers[k..])
      ensures armed == old(armed) + if info.wakes then {info.timer.id} else {}
    {
      infos, byId := infos + {info}, byId[nextId := info];
      armed := armed + if info.wakes then {nextId} else {};
      nextId := nextId + 1;
      timers := timers[..k] + [info] + timers[k..];
    }

    /** Sets userParam of the last timeout, if there is one. */
    method CancelLast()
      requires Valid()
      modifies last, this`armed
      ensures Valid() && armed == old(armed) - LastAsSet(old(View()))
    {
      if last != null {
        last.cancelled := true;
        armed := armed - {last.timer.id};
      }
    }

    method Supersede(info: UserCallbackInfo, now: int)
      requires Valid() && info in infos && info.wakes && info != last
      modifies this`count, this`last, this`lastGrab, this`armed, last
      ensures Valid() && last == info && count == old(count) + 1 && lastGrab == now
      ensures armed == old(armed) - LastAsSet(old(View()))
    {
      count := count + 1;
      CancelLast();
      last := info;
      lastGrab := now;
    }

    /** The timeout of the new grab takes the place of the last one, which is cancelled. */
    method Rearm(now: int)
      requires Valid()
      modifies this`clock, this`count, this`timers, this`last, this`lastGrab, this`nextId
      modifies this`infos, this`byId, this`armed, last
      ensures Valid() && last != null && last.timer.id == old(nextId) && clock == now
      ensures count == old(count) + 1 && lastGrab == now
      ensures armed == old(armed) + {old(nextId)} - LastAsSet(old(View())) && nextId == old(nextId) + 1
      ensures Timers(timers) == Insert(old(Timers(timers)), Timer(old(nextId), now + WAKE_TIMEOUT))
    {
      var info := RequestTimedCallback(now, WAKE_TIMEOUT, true);
      Supersede(info, now);
    }

    method GrabPartialWakeLock(now: int)
      requires Valid() && clock <= now
      modifies this, last
      ensures Valid() && View() == Next(old(View()), Grab(now))
    {
      ghost var was := View();
      held := true;
      assert last != null ==> last.timer.id < nextId;
      Rearm(now);
      GrabIs(was, View(), now);
    }

    method ReleaseWakeLock()
      requires Valid()
      modifies this, last
      ensures Valid() && View() == Next(old(View()), Release)
    {
      if count > 1 {
        count := count - 1;
      } else {
        count := 0;
        held := false;
        CancelLast();
      }
    }

    /** wakeTimeoutCallback */
    method WakeTimeout(cancelled: bool)
      modifies this`count, this`held
      ensures if cancelled then count == old(count) && held == old(held) else count == 0 && !held
    {
      if !cancelled {
        count := 0;
        held := false;
      }
    }

    /** The first pending timer is unlinked and freed. */
    method FreeFirst()
      requires Valid() && pending != [] && last != pending[0]
      modifies this`pending, this`infos, this`armed
      ensures Valid() && pending == old(pending)[1..] && armed == old(armed) - {old(pending)[0].timer.id}
    {
      RemovedDistinct(timers, pending);
      assert pending[0] in timers + pending;
      infos, armed := infos - {pending[0]}, armed - {pending[0].timer.id};
      pending := pending[1..];
    }

    /** userTimerCallback for the first pending timer. */
    method UserTimerCallback()
      requires Valid() && pending != []
      modifies this
      ensures Valid() && View() == Next(old(View()), FireNext)
    {
      ghost var was := View();
      var info := pending[0];
      FirstIs();
      if info.wakes {
        WakeTimeout(info.cancelled);
      }
      if last != null && last == info {
        last := null;
      }
      FreeFirst();
      assert Timers(pending) == Timers(old(pending))[1..];
      FireIs(was, View());
    }

    /** The first pending timer as the specification sees it. */
    lemma FirstIs()
      requires Valid() && pending != []
      ensures View().pending[0] == pending[0].timer
      ensures pending[0].timer.id in armed <==> pending[0].wakes && !pending[0].cancelled
      ensures View().last == Some(pending[0].timer.id) <==> last == pending[0]
    {
      assert pending[0] in timers + pending;
    }
  }
}
