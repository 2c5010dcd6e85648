/** AT commands whose request is answered by a later unsolicited result or by a timeout
    (sprd-ril/ril_async_cmd_handler.c). Every list operation runs under the list mutex, so it is
    one step; a callback of firePending is one step too. */
module AsyncCommands {
  import opened Options
  import opened Scheduler

  /** A C string constant: removal compares addresses, everything else compares text. */
  datatype Literal = Literal(address: nat, text: string)

  /** UserCallbackInfo */
  datatype Request = Request(token: nat, socket: nat, cmd: Literal)

  datatype Ending = TimedOut | Answered | Dropped | Removed

  datatype Done = Done(id: nat, ending: Ending, at: int)

  /** `request` gives the record an event's param points to; `done` is history: how each entry left. */
  datatype Async = Async(clock: int, timers: seq<Timer>, pending: seq<Timer>,
                         request: map<nat, Request>, next: nat, done: seq<Done>)

  datatype Key = ByText(socket: nat, text: string) | ByToken(token: nat, address: nat)

  datatype Step =
    | Add(r: Request, now: int, timeout: int)  // addAsyncCmdList; the timeout is in seconds
    | Expire(now: int)                         // processTimeouts
    | FireNext                                 // firePending, one callback
    | Search(key: Key)                         // checkAndCompleteRequest, removeAsyncCmdList

  predicate Matches(r: Request, key: Key) {
    match key
    case ByText(socket, text) => r.socket == socket && r.cmd.text == text
    case ByToken(token, address) => r.token == token && r.cmd.address == address
  }

  function Lower(c: char): char {
    if 'A' <= c <= 'Z' then (c as int + 32) as char else c
  }

  /** strncasecmp over the length of `prefix` finds no difference. */
  predicate StartsWithIgnoringCase(prefix: string, s: string) {
    |prefix| <= |s| && forall i :: 0 <= i < |prefix| ==> Lower(prefix[i]) == Lower(s[i])
  }

  /** s_asyncCmdTable has a handler for the command; each handler completes the token. */
  predicate HasHandler(text: string) {
    StartsWithIgnoringCase("+CLCK:", text) || StartsWithIgnoringCase("+SPTESTMODE:", text)
  }

  predicate Found(s: Async, t: Timer, key: Key) {
    t.id in s.request && Matches(s.request[t.id], key)
  }

  /** The first entry of the timer list that matches. */
  function FirstMatch(s: Async, key: Key, from: nat): (k: nat)
    requires from <= |s.timers|
    ensures from <= k <= |s.timers|
    ensures k < |s.timers| ==> Found(s, s.timers[k], key)
    ensures forall i :: from <= i < k ==> !Found(s, s.timers[i], key)
    decreases |s.timers| - from
  {
    if from == |s.timers| || Found(s, s.timers[from], key) then from
    else FirstMatch(s, key, from + 1)
  }

  function EndingOf(key: Key): Ending {
    match key
    case ByText(_, text) => if HasHandler(text) then Answered else Dropped
    case ByToken(_, _) => Removed
  }

  predicate Possible(s: Async, e: Step) {
    match e
    case Add(_, now, _) => s.clock <= now
    case Expire(now) => s.clock <= now
    case FireNext => s.pending != []
    case Search(_) => true
  }

  function Deadline(now: int, timeout: int): int {
    now + if timeout <= 0 then 0 else timeout * MICROS
  }

  function Next(s: Async, e: Step): Async
    requires Possible(s, e)
  {
    match e
    case Add(r, now, timeout) =>
      s.(clock := now, timers := Insert(s.timers, Timer(s.next, Deadline(now, timeout))),
         request := s.request[s.next := r], next := s.next + 1)
    case Expire(now) =>
      var k := ExpiredCount(s.timers, now);
      s.(clock := now, timers := s.timers[k..], pending := s.pending + s.timers[..k])
    case FireNext =>
      s.(pending := s.pending[1..], done := s.done + [Done(s.pending[0].id, TimedOut, s.clock)])
    case Search(key) =>
      var k := FirstMatch(s, key, 0);
      if k == |s.timers| then s
      else s.(timers := s.timers[..k] + s.timers[k + 1..],
              done := s.done + [Done(s.timers[k].id, EndingOf(key), s.clock)])
  }

  // ---------- every entry is in exactly one place ----------

  function Ids(timers: seq<Timer>): (r: seq<nat>)
    ensures |r| == |timers| && forall i :: 0 <= i < |r| ==> r[i] == timers[i].id
  {
    seq(|timers|, i requires 0 <= i < |timers| => timers[i].id)
  }

  function Ended(done: seq<Done>): (r: seq<nat>)
    ensures |r| == |done| && forall i :: 0 <= i < |r| ==> r[i] == done[i].id
  {
    seq(|done|, i requires 0 <= i < |done| => done[i].id)
  }

  function Places(s: Async): multiset<nat> {
    multiset(Ids(s.timers)) + multiset(Ids(s.pending)) + multiset(Ended(s.done))
  }

  /** Each entry ever added is once in the timer list, the pending list or the history. */
  ghost predicate Partition(s: Async) {
    forall id: nat :: Places(s)[id] == if id < s.next then 1 else 0
  }

  ghost predicate Inv(s: Async) {
    && Partition(s)
    && Sorted(s.timers)
    && (forall id :: id in s.request <==> 0 <= id < s.next)
    && (forall t :: t in s.pending ==> t.deadline < s.clock)
  }

  lemma InsertMovesNothing(timers: seq<Timer>, t: Timer)
    ensures multiset(Ids(Insert(timers, t))) == multiset(Ids(timers)) + multiset{t.id}
  {
    var k := InsertionPoint(timers, t.deadline);
    OneBetween(Ids(timers[..k]), t.id, Ids(timers[k..]));
    assert Ids(Insert(timers, t)) == Ids(timers[..k]) + [t.id] + Ids(timers[k..]);
    assert Ids(timers) == Ids(timers[..k]) + Ids(timers[k..]);
  }

  lemma RemoveTakesOne(timers: seq<Timer>, k: nat)
    requires k < |timers|
    ensures multiset(Ids(timers)) == multiset(Ids(timers[..k] + timers[k + 1..])) + multiset{timers[k].id}
  {
    OneBetween(Ids(timers[..k]), timers[k].id, Ids(timers[k + 1..]));
    assert Ids(timers) == Ids(timers[..k]) + [timers[k].id] + Ids(timers[k + 1..]);
    assert Ids(timers[..k] + timers[k + 1..]) == Ids(timers[..k]) + Ids(timers[k + 1..]);
  }

  lemma SearchMovesEntries(s: Async, key: Key)
    ensures Places(Next(s, Search(key))) == Places(s)
  {
    var k := FirstMatch(s, key, 0);
    if k < |s.timers| {
      RemoveTakesOne(s.timers, k);
      OneMoreEnded(s.done, Done(s.timers[k].id, EndingOf(key), s.clock));
    }
  }

  lemma OneMoreEnded(done: seq<Done>, d: Done)
    ensures multiset(Ended(done + [d])) == multiset(Ended(done)) + multiset{d.id}
  {
    assert Ended(done + [d]) == Ended(done) + [d.id];
  }

  lemma FireMovesEntries(s: Async)
    requires s.pending != []
    ensures Places(Next(s, FireNext)) == Places(s)
  {
    OneBetween([], s.pending[0].id, Ids(s.pending[1..]));
    assert Ids(s.pending) == [] + [s.pending[0].id] + Ids(s.pending[1..]);
    assert [] + Ids(s.pending[1..]) == Ids(s.pending[1..]);
    assert Ended(Next(s, FireNext).done) == Ended(s.done) + [s.pending[0].id];
  }

  lemma ExpireMovesEntries(s: Async, now: int)
    requires s.clock <= now
    ensures Places(Next(s, Expire(now))) == Places(s)
  {
    var k := ExpiredCount(s.timers, now);
    assert Ids(s.timers) == Ids(s.timers[..k]) + Ids(s.timers[k..]);
    assert Ids(Next(s, Expire(now)).pending) == Ids(s.pending) + Ids(s.timers[..k]);
  }

  lemma StepMovesEntries(s: Async, e: Step)
    requires Possible(s, e)
    ensures Places(Next(s, e)) == Places(s) + if e.Add? then multiset{s.next} else multiset{}
  {
    match e
    case Add(r, now, timeout) => InsertMovesNothing(s.timers, Timer(s.next, Deadline(now, timeout)));
    case Expire(now) => ExpireMovesEntries(s, now);
    case FireNext => FireMovesEntries(s);
    case Search(key) => SearchMovesEntries(s, key);
  }

  lemma StepKeepsOrder(s: Async, e: Step)
    requires Possible(s, e) && Sorted(s.timers)
    ensures Sorted(Next(s, e).timers)
    ensures forall t :: t in Next(s, e).pending ==> t in s.pending || (e.Expire? && t.deadline < e.now)
  {
    if e.Add? {
      InsertKeepsSorted(s.timers, Timer(s.next, Deadline(e.now, e.timeout)));
    }
  }

  lemma StepKeepsPartition(s: Async, e: Step)
    requires Partition(s) && Possible(s, e)
    ensures Partition(Next(s, e))
  {
    StepMovesEntries(s, e);
    var n := Next(s, e);
    forall id: nat ensures Places(n)[id] == if id < n.next then 1 else 0 {
      assert Places(s)[id] == if id < s.next then 1 else 0;
    }
  }

  lemma StepKeepsRest(s: Async, e: Step)
    requires Inv(s) && Possible(s, e)
    ensures var n := Next(s, e);
      && (forall id :: id in n.request <==> 0 <= id < n.next)
      && (forall t :: t in n.pending ==> t.deadline < n.clock)
  {
    StepKeepsOrder(s, e);
    assert s.clock <= Next(s, e).clock;
  }

  lemma StepKeepsInv(s: Async, e: Step)
    requires Inv(s) && Possible(s, e)
    ensures Inv(Next(s, e))
  {
    StepKeepsPartition(s, e);
    StepKeepsOrder(s, e);
    StepKeepsRest(s, e);
  }

  ghost predicate Reaches(s: Async, es: seq<Step>, t: Async)
    decreases |es|
  {
    if es == [] then s == t
    else Possible(s, es[0]) && Reaches(Next(s, es[0]), es[1..], t)
  }

  lemma {:induction false} RunKeepsInv(s: Async, es: seq<Step>, t: Async)
    requires Inv(s) && Reaches(s, es, t)
    ensures Inv(t) && s.done <= t.done
    decreases |es|
  {
    if es != [] {
      StepKeepsInv(s, es[0]);
      RunKeepsInv(Next(s, es[0]), es[1..], t);
    }
  }

  const EMPTY := Async(0, [], [], map[], 0, [])

  predicate Completes(d: Done) {
    d.ending == TimedOut || d.ending == Answered
  }

  /** Whether the result, the timeout or a removal comes first, an entry leaves once: it ends in
      one way, and while it is listed it has not ended. */
  lemma EndsAtMostOnce(es: seq<Step>, s: Async, i: nat, j: nat)
    requires Reaches(EMPTY, es, s) && i < |s.done|
    ensures j < |s.done| && s.done[i].id == s.done[j].id ==> i == j
    ensures s.done[i].id !in Ids(s.timers) && s.done[i].id !in Ids(s.pending)
  {
    RunKeepsInv(EMPTY, es, s);
    var id := s.done[i].id;
    assert Ended(s.done)[i] == id;
    OnePlace(s, id);
    if j < |s.done| && s.done[j].id == id && i != j {
      TwiceCounted(Ended(s.done), i, j);
    }
  }

  lemma OnePlace(s: Async, id: nat)
    requires Partition(s)
    ensures multiset(Ids(s.timers))[id] + multiset(Ids(s.pending))[id] + multiset(Ended(s.done))[id]
      == if id < s.next then 1 else 0
  {
    assert Places(s)[id] == if id < s.next then 1 else 0;
  }

  // ---------- unsolicited results ----------

  /** A result ends one entry if the timer list holds a match, and nothing otherwise; the entry it
      ends matches and no other match is due earlier. The token is completed exactly when the
      command table has a handler: otherwise the entry is freed unanswered. */
  lemma ResultTakesEarliest(s: Async, socket: nat, text: string)
    requires Inv(s)
    ensures var key := ByText(socket, text);
      var n := Next(s, Search(key));
      if exists t :: t in s.timers && Found(s, t, key) then
        exists t :: t in s.timers && Found(s, t, key)
          && n.done == s.done + [Done(t.id, if HasHandler(text) then Answered else Dropped, s.clock)]
          && t.id !in Ids(n.timers) && |n.timers| == |s.timers| - 1
          && forall u :: u in s.timers && Found(s, u, key) ==> t.deadline <= u.deadline
      else n == s
  {
    var key := ByText(socket, text);
    var k := FirstMatch(s, key, 0);
    if k < |s.timers| {
      var t := s.timers[k];
      StepKeepsInv(s, Search(key));
      var n := Next(s, Search(key));
      assert Ended(n.done)[|s.done|] == t.id;
      OnePlace(n, t.id);
      assert forall u :: u in s.timers && Found(s, u, key) ==> t.deadline <= u.deadline;
    }
  }

  // ---------- timeouts ----------

  function Drain(s: Async): (r: Async)
    ensures r.pending == [] && r.timers == s.timers && r.next == s.next
    decreases |s.pending|
  {
    if s.pending == [] then s else Drain(Next(s, FireNext))
  }

  lemma {:induction false} DrainCompletesPending(s: Async)
    requires Inv(s)
    ensures Inv(Drain(s)) && s.done <= Drain(s).done
    ensures forall t :: t in s.pending ==> Done(t.id, TimedOut, s.clock) in Drain(s).done
    decreases |s.pending|
  {
    if s.pending != [] {
      StepKeepsInv(s, FireNext);
      var n := Next(s, FireNext);
      DrainCompletesPending(n);
      assert Drain(n).done[|s.done|] == Done(s.pending[0].id, TimedOut, s.clock);
      assert s.pending == [s.pending[0]] + s.pending[1..];
    }
  }

  /** One turn of the handler loop completes every entry that is overdue and no other. */
  lemma TurnCompletesOverdue(s: Async, now: int, t: Timer)
    requires Inv(s) && s.clock <= now && t in s.timers
    ensures var n := Drain(Next(s, Expire(now)));
      if t.deadline < now then Done(t.id, TimedOut, now) in n.done else t in n.timers
  {
    var n := Next(s, Expire(now));
    StepKeepsInv(s, Expire(now));
    DrainCompletesPending(n);
    var k := ExpiredCount(s.timers, now);
    var i :| 0 <= i < |s.timers| && s.timers[i] == t;
    if i < k {
      assert s.timers[..k][i] == t && t in n.pending;
    } else {
      assert s.timers[k..][i - k] == t;
    }
  }

  // ---------- the code ----------

  /** The first k of `all` have been moved behind `before`. */
  predicate IsMoved(all: seq<Timer>, before: seq<Timer>, k: nat, timers: seq<Timer>, pending: seq<Timer>) {
    k <= |all| && timers == all[k..] && pending == before + all[..k]
  }

  lemma NothingMoved(all: seq<Timer>, before: seq<Timer>)
    ensures IsMoved(all, before, 0, all, before)
  {
  }

  lemma OneMoved(all: seq<Timer>, before: seq<Timer>, k: nat)
    requires k < |all|
    ensures IsMoved(all, before, k + 1, all[k..][1..], before + all[..k] + [all[k..][0]])
  {
  }

  class CommandHandler {
    var clock: int
    var timers: seq<Timer>
    var pending: seq<Timer>
    var request: map<nat, Request>
    var next: nat
    var done: seq<Done>

    function View(): Async
      reads this
    {
      Async(clock, timers, pending, request, next, done)
    }

    constructor ()
      ensures View() == EMPTY
    {
      clock, timers, pending, request, next, done := 0, [], [], map[], 0, [];
    }

    method FindPosition(deadline: int) returns (k: nat)
      ensures k == InsertionPoint(timers, deadline)
    {
      k := 0;
      while k < |timers| && timers[k].deadline < deadline
        invariant k <= |timers|
        invariant forall i :: 0 <= i < k ==> timers[i].deadline < deadline
      {
        k := k + 1;
      }
      InsertionPointIs(timers, deadline, k);
    }

    /** addAsyncCmdList and addRilEvent */
    method AddAsyncCmdList(r: Request, now: int, timeout: int)
      requires clock <= now
      modifies this
      ensures View() == Next(old(View()), Step.Add(r, now, timeout))
    {
      clock := now;
      var deadline := now;
      if timeout > 0 {
        deadline := now + timeout * MICROS;
      }
      var k := FindPosition(deadline);
      timers := timers[..k] + [Timer(next, deadline)] + timers[k..];
      request := request[next := r];
      next := next + 1;
    }

    method ProcessTimeouts(now: int)
      requires clock <= now
      modifies this`clock, this`timers, this`pending
      ensures View() == Next(old(View()), Expire(now))
    {
      clock := now;
      var k := 0;
      ghost var all, before := timers, pending;
      NothingMoved(all, before);
      while timers != [] && now > timers[0].deadline
        invariant clock == now && IsMoved(all, before, k, timers, pending)
        invariant forall i :: 0 <= i < k ==> all[i].deadline < now
        decreases |timers|
      {
        OneMoved(all, before, k);
        MoveFirst();
        k := k + 1;
      }
      InsertionPointIs(all, now, k);
    }

    method MoveFirst()
      requires timers != []
      modifies this`timers, this`pending
      ensures timers == old(timers)[1..] && pending == old(pending) + [old(timers)[0]]
    {
      pending := pending + [timers[0]];
      timers := timers[1..];
    }

    /** firePending */
    method FirePending()
      modifies this`pending, this`done
      ensures View() == Drain(old(View()))
    {
      while pending != []
        invariant Drain(View()) == Drain(old(View()))
        decreases |pending|
      {
        var t := pending[0];
        pending := pending[1..];
        done := done + [Done(t.id, TimedOut, clock)];
      }
    }

    /** The scan both searches make of the timer list. */
    method Scan(key: Key) returns (k: nat)
      ensures k == FirstMatch(View(), key, 0)
    {
      k := 0;
      while k < |timers|
        invariant k <= |timers|
        invariant FirstMatch(View(), key, k) == FirstMatch(View(), key, 0)
      {
        if timers[k].id in request && Matches(request[timers[k].id], key) {
          return;
        }
        k := k + 1;
      }
    }

    method CheckAndCompleteRequest(socket: nat, text: string)
      modifies this`timers, this`done
      ensures View() == Next(old(View()), Search(ByText(socket, text)))
    {
      var k := Scan(ByText(socket, text));
      if k < |timers| {
        var ending := if HasHandler(text) then Answered else Dropped;
        done := done + [Done(timers[k].id, ending, clock)];
        timers := timers[..k] + timers[k + 1..];
      }
    }

    method RemoveAsyncCmdList(token: nat, address: nat)
      modifies this`timers, this`done
      ensures View() == Next(old(View()), Search(ByToken(token, address)))
    {
      var k := Scan(ByToken(token, address));
      if k < |timers| {
        done := done + [Done(timers[k].id, Removed, clock)];
        timers := timers[..k] + timers[k + 1..];
      }
    }
  }
}
