/** How often the tokens of asynchronous commands are completed (sprd-ril/ril_async_cmd_handler.c and its
    callers in ril_network.c and ril_sim.c). An entry ends once; a token can be entered again. */
module AsyncTokens {
  import opened AsyncCommands
  import opened Options
  import S = Scheduler

  ghost predicate CompletedIn(s: Async, id: nat) {
    exists d :: d in s.done && d.id == id && Completes(d)
  }

  /** An entry that has completed its token or, being listed, still may. */
  ghost predicate Counts(s: Async, id: nat) {
    id in s.request && (id in Ids(s.timers) || id in Ids(s.pending) || CompletedIn(s, id))
  }

  ghost predicate CountsFor(s: Async, id: nat, token: nat) {
    Counts(s, id) && s.request[id].token == token
  }

  /** No token has two such entries. */
  ghost predicate OneEach(s: Async) {
    forall a, b :: Counts(s, a) && Counts(s, b) && s.request[a].token == s.request[b].token ==> a == b
  }

  /** Two entries in the history have completed the same token. */
  ghost predicate TwiceCompleted(s: Async) {
    exists i, j ::
      && 0 <= i < j < |s.done| && Completes(s.done[i]) && Completes(s.done[j])
      && s.done[i].id in s.request && s.done[j].id in s.request
      && s.request[s.done[i].id].token == s.request[s.done[j].id].token
  }

  ghost predicate NothingAdded(es: seq<Step>) {
    forall k :: 0 <= k < |es| ==> !es[k].Add?
  }

  /** Whatever happens next, short of new entries, no token is completed twice. */
  ghost predicate Safe(s: Async) {
    forall es, t :: NothingAdded(es) && Reaches(s, es, t) ==> !TwiceCompleted(t)
  }

  // ---------- what counts ----------

  lemma EndsOnce(s: Async, i: nat, j: nat)
    requires Inv(s) && i < |s.done| && j < |s.done| && s.done[i].id == s.done[j].id
    ensures i == j
  {
    assert Ended(s.done)[i] == Ended(s.done)[j];
    OnePlace(s, s.done[i].id);
    if i != j {
      TwiceCounted(Ended(s.done), i, j);
    }
  }

  /** Without new entries nothing begins to count. */
  lemma StepCounts(s: Async, e: Step, id: nat)
    requires Inv(s) && Possible(s, e) && !e.Add? && Counts(Next(s, e), id)
    ensures Counts(s, id) && Next(s, e).request == s.request
  {
    if !CompletedIn(Next(s, e), id) {
      ListedBefore(s, e, id);
    } else if !CompletedIn(s, id) {
      CompletedByStep(s, e, id);
    }
  }

  lemma CompletedByStep(s: Async, e: Step, id: nat)
    requires Possible(s, e) && !e.Add? && CompletedIn(Next(s, e), id) && !CompletedIn(s, id)
    ensures id in Ids(s.timers) || id in Ids(s.pending)
  {
    var n := Next(s, e);
    var d :| d in n.done && d.id == id && Completes(d);
    assert d == n.done[|s.done|];
    if e.Search? {
      var k := FirstMatch(s, e.key, 0);
      assert Ids(s.timers)[k] == id;
    } else {
      assert Ids(s.pending)[0] == id;
    }
  }

  lemma EntryOf(timers: seq<S.Timer>, id: nat) returns (t: S.Timer)
    requires id in Ids(timers)
    ensures t in timers && t.id == id
  {
    var i :| 0 <= i < |timers| && Ids(timers)[i] == id;
    t := timers[i];
  }

  lemma IdOf(timers: seq<S.Timer>, t: S.Timer)
    requires t in timers
    ensures t.id in Ids(timers)
  {
    var i :| 0 <= i < |timers| && timers[i] == t;
    assert Ids(timers)[i] == t.id;
  }

  lemma TimerBefore(s: Async, e: Step, t: S.Timer)
    requires Possible(s, e) && !e.Add? && t in Next(s, e).timers
    ensures t in s.timers
  {
  }

  lemma PendingBefore(s: Async, e: Step, t: S.Timer)
    requires Possible(s, e) && !e.Add? && t in Next(s, e).pending
    ensures t in s.timers || t in s.pending
  {
  }

  lemma ListedBefore(s: Async, e: Step, id: nat)
    requires Possible(s, e) && !e.Add?
    requires id in Ids(Next(s, e).timers) || id in Ids(Next(s, e).pending)
    ensures id in Ids(s.timers) || id in Ids(s.pending)
  {
    var t: S.Timer;
    if id in Ids(Next(s, e).timers) {
      t := EntryOf(Next(s, e).timers, id);
      TimerBefore(s, e, t);
    } else {
      t := EntryOf(Next(s, e).pending, id);
      PendingBefore(s, e, t);
    }
    if t in s.timers {
      IdOf(s.timers, t);
    } else {
      IdOf(s.pending, t);
    }
  }

  lemma {:induction false} RunCounts(s: Async, es: seq<Step>, t: Async, id: nat)
    requires Inv(s) && NothingAdded(es) && Reaches(s, es, t) && Counts(t, id)
    ensures Counts(s, id) && t.request == s.request
    decreases |es|
  {
    if es != [] {
      StepKeepsInv(s, es[0]);
      RunCounts(Next(s, es[0]), es[1..], t, id);
      StepCounts(s, es[0], id);
    }
  }

  // ---------- all that is listed may time out ----------

  lemma {:induction false} DrainIsReached(s: Async) returns (es: seq<Step>)
    ensures NothingAdded(es) && Reaches(s, es, Drain(s))
    ensures Drain(s).request == s.request
    decreases |s.pending|
  {
    if s.pending == [] {
      es := [];
    } else {
      var rest := DrainIsReached(Next(s, FireNext));
      es := [FireNext] + rest;
      assert es[1..] == rest;
    }
  }

  /** Everything listed expires and is fired. */
  function Late(s: Async): (r: int)
    ensures s.clock <= r
  {
    if s.timers == [] then s.clock
    else
      var d := s.timers[|s.timers| - 1].deadline + 1;
      if d < s.clock then s.clock else d
  }

  lemma AllExpire(s: Async) returns (n: Async)
    requires Inv(s)
    ensures n == Next(s, Expire(Late(s))) && Inv(n)
    ensures n.pending == s.pending + s.timers && n.done == s.done && n.request == s.request
  {
    n := Next(s, Expire(Late(s)));
    StepKeepsInv(s, Expire(Late(s)));
    var k := S.ExpiredCount(s.timers, Late(s));
    assert k == |s.timers|;
  }

  lemma ThenFire(s: Async, e: Step, rest: seq<Step>, t: Async)
    requires Possible(s, e) && !e.Add? && NothingAdded(rest) && Reaches(Next(s, e), rest, t)
    ensures NothingAdded([e] + rest) && Reaches(s, [e] + rest, t)
  {
    assert ([e] + rest)[1..] == rest;
  }

  lemma AllTimeOut(s: Async) returns (es: seq<Step>, t: Async)
    requires Inv(s)
    ensures NothingAdded(es) && Reaches(s, es, t) && Inv(t) && t.request == s.request
    ensures forall id :: Counts(s, id) ==> CompletedIn(t, id)
  {
    var n := AllExpire(s);
    DrainCompletesPending(n);
    var rest := DrainIsReached(n);
    t := Drain(n);
    ThenFire(s, Expire(Late(s)), rest, t);
    es := [Expire(Late(s))] + rest;
    forall id | Counts(s, id) ensures CompletedIn(t, id) {
      CountedIsCompleted(s, n, id);
    }
  }

  lemma CountedIsCompleted(s: Async, n: Async, id: nat)
    requires Counts(s, id) && n.pending == s.pending + s.timers && n.done == s.done
    requires n.done <= Drain(n).done
    requires forall p :: p in n.pending ==> Done(p.id, TimedOut, n.clock) in Drain(n).done
    ensures CompletedIn(Drain(n), id)
  {
    if CompletedIn(s, id) {
      var d :| d in s.done && d.id == id && Completes(d);
      assert d in Drain(n).done;
    } else {
      PendingIsCompleted(s, n, id);
    }
  }

  lemma PendingIsCompleted(s: Async, n: Async, id: nat)
    requires id in Ids(s.timers) || id in Ids(s.pending)
    requires n.pending == s.pending + s.timers
    requires forall p :: p in n.pending ==> Done(p.id, TimedOut, n.clock) in Drain(n).done
    ensures CompletedIn(Drain(n), id)
  {
    if id in Ids(s.timers) {
      var i :| 0 <= i < |s.timers| && Ids(s.timers)[i] == id;
      assert s.timers[i] in n.pending;
      assert Done(id, TimedOut, n.clock) in Drain(n).done;
    } else {
      var i :| 0 <= i < |s.pending| && Ids(s.pending)[i] == id;
      assert s.pending[i] in n.pending;
      assert Done(id, TimedOut, n.clock) in Drain(n).done;
    }
  }

  // ---------- when a token is completed at most once ----------

  lemma TwiceNeedsTwo(t: Async)
    requires Inv(t) && TwiceCompleted(t)
    ensures !OneEach(t)
  {
    var i, j :|
      && 0 <= i < j < |t.done| && Completes(t.done[i]) && Completes(t.done[j])
      && t.done[i].id in t.request && t.done[j].id in t.request
      && t.request[t.done[i].id].token == t.request[t.done[j].id].token;
    var a, b := t.done[i].id, t.done[j].id;
    assert t.done[i] in t.done && t.done[j] in t.done;
    assert Counts(t, a) && Counts(t, b);
    if a == b {
      EndsOnce(t, i, j);
    }
  }

  lemma TwoMakeTwice(t: Async, a: nat, b: nat)
    requires a != b && CompletedIn(t, a) && CompletedIn(t, b)
    requires a in t.request && b in t.request && t.request[a].token == t.request[b].token
    ensures TwiceCompleted(t)
  {
    var d :| d in t.done && d.id == a && Completes(d);
    var e :| e in t.done && e.id == b && Completes(e);
    var i :| 0 <= i < |t.done| && t.done[i] == d;
    var j :| 0 <= j < |t.done| && t.done[j] == e;
    if i < j {
      assert t.done[i].id in t.request && t.done[j].id in t.request;
    } else {
      assert j < i && t.done[i].id in t.request && t.done[j].id in t.request;
    }
  }

  /** A state is safe iff no token has two entries that are listed or have completed it. */
  lemma SafeIff(s: Async)
    requires Inv(s)
    ensures Safe(s) <==> OneEach(s)
  {
    if OneEach(s) {
      forall es, t | NothingAdded(es) && Reaches(s, es, t) ensures !TwiceCompleted(t) {
        RunKeepsInv(s, es, t);
        if TwiceCompleted(t) {
          TwiceNeedsTwo(t);
          var a, b :| Counts(t, a) && Counts(t, b) && t.request[a].token == t.request[b].token && a != b;
          RunCounts(s, es, t, a);
          RunCounts(s, es, t, b);
        }
      }
    } else {
      var a, b :| Counts(s, a) && Counts(s, b) && s.request[a].token == s.request[b].token && a != b;
      var es, t := AllTimeOut(s);
      TwoMakeTwice(t, a, b);
    }
  }

  /** The token is neither completed nor listed. */
  ghost predicate IsFree(s: Async, token: nat) {
    forall id :: !CountsFor(s, id, token)
  }

  lemma AddCounts(s: Async, e: Step, id: nat)
    requires Inv(s) && Possible(s, e) && e.Add?
    ensures Counts(Next(s, e), id) <==> Counts(s, id) || id == s.next
    ensures Counts(s, id) ==> Next(s, e).request[id] == s.request[id] && id != s.next
  {
    var n := Next(s, e);
    var k := S.InsertionPoint(s.timers, Deadline(e.now, e.timeout));
    assert n.timers[k].id == s.next == Ids(n.timers)[k];
    assert CompletedIn(n, id) <==> CompletedIn(s, id);
    InsertMovesNothing(s.timers, S.Timer(s.next, Deadline(e.now, e.timeout)));
    assert id in Ids(n.timers) <==> id in multiset(Ids(n.timers));
    assert id in Ids(s.timers) <==> id in multiset(Ids(s.timers));
  }

  /** An entry keeps the state safe iff its token is free. */
  lemma AddStaysSafeIff(s: Async, e: Step)
    requires Inv(s) && Possible(s, e) && e.Add? && OneEach(s)
    ensures OneEach(Next(s, e)) <==> IsFree(s, e.r.token)
  {
    var n := Next(s, e);
    AddCounts(s, e, s.next);
    if IsFree(s, e.r.token) {
      forall a, b | Counts(n, a) && Counts(n, b) && n.request[a].token == n.request[b].token ensures a == b {
        AddCounts(s, e, a);
        AddCounts(s, e, b);
        assert !CountsFor(s, a, e.r.token) && !CountsFor(s, b, e.r.token);
      }
    } else {
      var id :| CountsFor(s, id, e.r.token);
      AddCounts(s, e, id);
      assert Counts(n, id) && Counts(n, s.next) && id != s.next;
    }
  }

  lemma OtherStepsStaySafe(s: Async, e: Step)
    requires Inv(s) && Possible(s, e) && !e.Add? && OneEach(s)
    ensures OneEach(Next(s, e))
  {
    forall a, b | Counts(Next(s, e), a) && Counts(Next(s, e), b)
                  && Next(s, e).request[a].token == Next(s, e).request[b].token
      ensures a == b
    {
      StepCounts(s, e, a);
      StepCounts(s, e, b);
    }
  }

  ghost predicate SafeThroughout(s: Async, es: seq<Step>)
    decreases |es|
  {
    Safe(s) && (es != [] ==> Possible(s, es[0]) && SafeThroughout(Next(s, es[0]), es[1..]))
  }

  /** Every entry is added with a token that is neither completed nor listed. */
  ghost predicate AddsFreeTokens(s: Async, es: seq<Step>)
    decreases |es|
  {
    es != [] ==>
      && Possible(s, es[0]) && (es[0].Add? ==> IsFree(s, es[0].r.token))
      && AddsFreeTokens(Next(s, es[0]), es[1..])
  }

  /** Along a run no token is completed twice, nor can be by what is listed, iff no entry is added with
      a token that is already completed or still listed. */
  lemma {:induction false} TokensAreCompletedOnceIff(s: Async, es: seq<Step>, t: Async)
    requires Inv(s) && OneEach(s) && Reaches(s, es, t)
    ensures SafeThroughout(s, es) <==> AddsFreeTokens(s, es)
    ensures SafeThroughout(s, es) ==> OneEach(t) && !TwiceCompleted(t)
    decreases |es|
  {
    SafeIff(s);
    if es == [] {
      assert NothingAdded([]) && Reaches(s, [], s);
    } else {
      var n := Next(s, es[0]);
      StepKeepsInv(s, es[0]);
      SafeIff(n);
      if es[0].Add? {
        AddStaysSafeIff(s, es[0]);
      } else {
        OtherStepsStaySafe(s, es[0]);
      }
      if OneEach(n) {
        TokensAreCompletedOnceIff(n, es[1..], t);
      }
    }
  }

  lemma StartIsSafe()
    ensures Inv(EMPTY) && OneEach(EMPTY)
  {
    assert Places(EMPTY) == multiset{};
  }

  // ---------- the callers ----------

  /** A caller that gives up after an error removes one entry and completes the token itself. The handler
      never completes the token, before or after, iff every entry that counts for it is the first match. */
  lemma ErrorPathCompletesOnceIff(s: Async, token: nat, address: nat)
    requires Inv(s)
    ensures
      var (n, k) := (Next(s, Search(ByToken(token, address))), FirstMatch(s, ByToken(token, address), 0));
      (forall es, t, id :: NothingAdded(es) && Reaches(n, es, t) && CompletedIn(t, id) && id in t.request ==>
         t.request[id].token != token)
      <==> (forall id :: CountsFor(s, id, token) ==> k < |s.timers| && id == s.timers[k].id)
  {
    var key := ByToken(token, address);
    var (n, k) := (Next(s, Search(key)), FirstMatch(s, key, 0));
    StepKeepsInv(s, Search(key));
    RemovalCounts(s, token, address);
    if forall id :: CountsFor(s, id, token) ==> k < |s.timers| && id == s.timers[k].id {
      forall es, t, id | NothingAdded(es) && Reaches(n, es, t) && CompletedIn(t, id) && id in t.request
        ensures t.request[id].token != token
      {
        RunCounts(n, es, t, id);
        assert CountsFor(s, id, s.request[id].token);
      }
    } else {
      var id :| CountsFor(s, id, token) && !(k < |s.timers| && id == s.timers[k].id);
      var es, t := AllTimeOut(n);
      assert Counts(n, id) && CompletedIn(t, id);
    }
  }

  lemma RemovalCounts(s: Async, token: nat, address: nat)
    requires Inv(s)
    ensures
      var (n, k) := (Next(s, Search(ByToken(token, address))), FirstMatch(s, ByToken(token, address), 0));
      && n.request == s.request
      && forall id :: Counts(n, id) <==> Counts(s, id) && !(k < |s.timers| && id == s.timers[k].id)
  {
    var key := ByToken(token, address);
    var (n, k) := (Next(s, Search(key)), FirstMatch(s, key, 0));
    StepKeepsInv(s, Search(key));
    forall id ensures Counts(n, id) <==> Counts(s, id) && !(k < |s.timers| && id == s.timers[k].id) {
      if k < |s.timers| {
        RemovedCounts(s, key, id);
      }
    }
  }

  lemma RemovedCounts(s: Async, key: Key, id: nat)
    requires Inv(s) && key.ByToken? && FirstMatch(s, key, 0) < |s.timers|
    ensures Counts(Next(s, Search(key)), id) <==> Counts(s, id) && id != s.timers[FirstMatch(s, key, 0)].id
  {
    var (n, k) := (Next(s, Search(key)), FirstMatch(s, key, 0));
    StepKeepsInv(s, Search(key));
    RemoveTakesOne(s.timers, k);
    assert Ids(s.timers)[k] == s.timers[k].id && Ended(n.done)[|s.done|] == s.timers[k].id;
    OnePlace(s, id);
    OnePlace(n, id);
    assert id in Ids(n.timers) <==> multiset(Ids(n.timers))[id] > 0;
    assert id in Ids(s.timers) <==> multiset(Ids(s.timers))[id] > 0;
    RemovedIsNotCompleted(s, n, id);
  }

  lemma RemovedIsNotCompleted(s: Async, n: Async, id: nat)
    requires n.done != [] && s.done == n.done[..|n.done| - 1] && n.done[|n.done| - 1].ending == Removed
    ensures CompletedIn(n, id) <==> CompletedIn(s, id)
  {
    if CompletedIn(n, id) {
      var d :| d in n.done && d.id == id && Completes(d);
      var i :| 0 <= i < |n.done| && n.done[i] == d;
      assert s.done[i] == d;
    }
    if CompletedIn(s, id) {
      var d :| d in s.done && d.id == id && Completes(d);
      assert d in n.done;
    }
  }

  lemma Before(s: Async, e: Step, es: seq<Step>, t: Async) returns (all: seq<Step>)
    requires Possible(s, e) && Reaches(Next(s, e), es, t)
    ensures all == [e] + es && Reaches(s, all, t)
  {
    all := [e] + es;
    assert all[1..] == es;
  }

  /** The entry with this id and deadline expires and is completed. */
  lemma OneTimesOut(s: Async, t: S.Timer, late: int) returns (es: seq<Step>)
    requires s.timers == [t] && s.pending == [] && t.deadline < late && s.clock <= late
    ensures es == [Expire(late), FireNext]
    ensures Reaches(s, es, s.(clock := late, timers := [], done := s.done + [Done(t.id, TimedOut, late)]))
  {
    var n := s.(clock := late, timers := [], pending := [t]);
    var after := s.(clock := late, timers := [], done := s.done + [Done(t.id, TimedOut, late)]);
    assert S.ExpiredCount([t], late) == 1;
    assert Next(s, Expire(late)) == n && Next(n, FireNext) == after;
    var none: seq<Step> := [];
    assert Reaches(after, none, after);
    var last := Before(n, FireNext, none, after);
    es := Before(s, Expire(late), last, after);
  }

  lemma {:induction false} ThenReaches(s: Async, es: seq<Step>, t: Async, fs: seq<Step>, u: Async)
    requires Reaches(s, es, t) && Reaches(t, fs, u)
    ensures Reaches(s, es + fs, u)
    decreases |es|
  {
    if es == [] {
      assert es + fs == fs;
    } else {
      ThenReaches(Next(s, es[0]), es[1..], t, fs, u);
      assert (es + fs)[1..] == es[1..] + fs;
    }
  }

  /** A single entry is added to empty lists and times out. */
  lemma AddedTimesOut(s: Async, r: Request, late: int) returns (es: seq<Step>, t: Async)
    requires s.timers == [] && s.pending == [] && s.clock + S.MICROS < late
    ensures es == [Add(r, s.clock, 1), Expire(late), FireNext]
    ensures t == Async(late, [], [], s.request[s.next := r], s.next + 1, s.done + [Done(s.next, TimedOut, late)])
    ensures Reaches(s, es, t)
  {
    var e := S.Timer(s.next, s.clock + S.MICROS);
    var n := s.(timers := [e], request := s.request[s.next := r], next := s.next + 1);
    assert Next(s, Add(r, s.clock, 1)) == n;
    var rest := OneTimesOut(n, e, late);
    t := n.(clock := late, timers := [], done := n.done + [Done(e.id, TimedOut, late)]);
    es := Before(s, Add(r, s.clock, 1), rest, t);
  }

  /** The callers that try again after +CME ERROR: 3 remove the entry and add it anew. If it has timed out
      meanwhile there is nothing to remove, and the token is completed a second time. */
  lemma RetryCompletesTwice(r: Request, late: int) returns (t: Async)
    requires late > S.MICROS
    ensures
      var again := [Add(r, 0, 1), Expire(late), FireNext]
        + ([Search(ByToken(r.token, r.cmd.address))] + [Add(r, late, 1), Expire(2 * late), FireNext]);
      Reaches(EMPTY, again, t) && TwiceCompleted(t)
    ensures t.done == [Done(0, TimedOut, late)] + [Done(1, TimedOut, 2 * late)]
  {
    var first, s := AddedTimesOut(EMPTY, r, late);
    var key := ByToken(r.token, r.cmd.address);
    var second: seq<Step>;
    second, t := AddedTimesOut(s, r, 2 * late);
    assert Next(s, Search(key)) == s;
    var retry := Before(s, Search(key), second, t);
    ThenReaches(EMPTY, first, s, retry, t);
    assert t.done[0].id in t.request && t.done[1].id in t.request && Completes(t.done[0]);
  }

  /** What the callers enter: each text has a handler, so every result is passed on. */
  const CALLERS_TEXTS := {"+CLCK:", "+SPTESTMODE:"}

  lemma CallersHaveHandlers(text: string)
    requires text in CALLERS_TEXTS
    ensures HasHandler(text)
  {
  }

  ghost predicate NothingDropped(s: Async) {
    && (forall id :: id in s.request ==> s.request[id].cmd.text in CALLERS_TEXTS)
    && (forall d :: d in s.done ==> d.ending != Dropped)
  }

  /** As long as only these are entered, no entry is freed without its token being completed, except by
      the caller that removes it. */
  lemma {:induction false} CallersAreAnswered(s: Async, es: seq<Step>, t: Async)
    requires NothingDropped(s) && Reaches(s, es, t)
    requires forall k :: 0 <= k < |es| && es[k].Add? ==> es[k].r.cmd.text in CALLERS_TEXTS
    ensures NothingDropped(t)
    decreases |es|
  {
    if es != [] {
      if es[0].Search? && es[0].key.ByText? {
        var k := FirstMatch(s, es[0].key, 0);
        if k < |s.timers| {
          CallersHaveHandlers(es[0].key.text);
        }
      }
      assert NothingDropped(Next(s, es[0]));
      CallersAreAnswered(Next(s, es[0]), es[1..], t);
    }
  }
}
