/** The event loop's lists, relinked in place (libril/ril_event.cpp): circular doubly linked lists
    of events around a head node. The table of watched descriptors is in WatchTable. */
module EventLoop {
  import opened Scheduler

  class Event {
    var next: Event?
    var prev: Event?
    var fd: int
    var timeout: TimeVal
    const id: nat

    constructor (id: nat, fd: int)
      ensures this.id == id && this.fd == fd && next == null && prev == null && Normal(timeout)
    {
      this.id, this.fd := id, fd;
      next, prev, timeout := null, null, TimeVal(0, 0);
    }
  }

  // ---------- rings ----------

  /** The i-th node of the ring that starts at its head; the head comes round again at the end. */
  function Node(head: Event, s: seq<Event>, i: int): Event
    requires -1 <= i <= |s|
  {
    if 0 <= i < |s| then s[i] else head
  }

  ghost predicate Distinct(head: Event, s: seq<Event>) {
    && head !in s
    && forall i, j :: 0 <= i < j < |s| ==> s[i] != s[j]
  }

  /** `s` are the members of the ring around `head`, in the order of the next pointers. */
  ghost predicate Ring(head: Event, s: seq<Event>)
    reads head, s
  {
    && Distinct(head, s)
    && forall i :: -1 <= i < |s| ==>
      Node(head, s, i).next == Node(head, s, i + 1) && Node(head, s, i + 1).prev == Node(head, s, i)
  }

  /** addToList: `ev` goes in front of `at`, the k-th node. */
  method AddToList(ev: Event, at: Event, ghost head: Event, ghost s: seq<Event>, ghost k: nat)
    requires Ring(head, s) && k <= |s| && at == Node(head, s, k)
    requires ev != head && ev !in s
    modifies ev`next, ev`prev, at`prev, Node(head, s, k - 1)`next
    ensures Ring(head, s[..k] + [ev] + s[k..])
  {
    ghost var before := Node(head, s, k - 1);
    assert at.prev == before && Node(head, s, k - 1 + 1) == at;
    ev.next := at;
    ev.prev := at.prev;
    ev.prev.next := ev;
    at.prev := ev;
    ghost var s' := s[..k] + [ev] + s[k..];
    forall i | -1 <= i < |s'|
      ensures Node(head, s', i).next == Node(head, s', i + 1)
      ensures Node(head, s', i + 1).prev == Node(head, s', i)
    {
      if i < k - 1 {
        assert Node(head, s, i).next == Node(head, s, i + 1);
      } else if i > k {
        assert Node(head, s, i - 1).next == Node(head, s, i);
      }
    }
  }

  /** removeFromList: the k-th member leaves the ring. */
  method RemoveFromList(ev: Event, ghost head: Event, ghost s: seq<Event>, ghost k: nat)
    requires Ring(head, s) && k < |s| && ev == s[k]
    modifies ev`next, ev`prev, Node(head, s, k + 1)`prev, Node(head, s, k - 1)`next
    ensures Ring(head, s[..k] + s[k + 1..]) && ev.next == null && ev.prev == null
  {
    assert ev == Node(head, s, k) && ev.next == Node(head, s, k + 1);
    assert ev.prev == Node(head, s, k - 1) && Node(head, s, k - 1 + 1) == ev;
    ev.next.prev := ev.prev;
    ev.prev.next := ev.next;
    ev.next := null;
    ev.prev := null;
    ghost var s' := s[..k] + s[k + 1..];
    forall i | -1 <= i < |s'|
      ensures Node(head, s', i).next == Node(head, s', i + 1)
      ensures Node(head, s', i + 1).prev == Node(head, s', i)
    {
      if i < k - 1 {
        assert Node(head, s, i).next == Node(head, s, i + 1);
      } else if i > k - 1 {
        assert Node(head, s, i + 1).next == Node(head, s, i + 2);
      }
    }
  }

  // ---------- the loop's state ----------

  ghost function TimersOfEvents(s: seq<Event>): (r: seq<Timer>)
    reads s
    ensures |r| == |s|
    ensures forall i :: 0 <= i < |s| ==> r[i] == Timer(s[i].id, Micros(s[i].timeout))
  {
    seq(|s|, i requires 0 <= i < |s| reads s => Timer(s[i].id, Micros(s[i].timeout)))
  }

  function Max(a: int, b: int): int {
    if a > b then a else b
  }

  /** No node of one list is a node of the other. */
  lemma Apart(head: Event, s: seq<Event>, other: Event, t: seq<Event>)
    requires head != other && head !in t && other !in s && forall e :: e in s ==> e !in t
    ensures forall i :: -1 <= i <= |s| ==> Node(head, s, i) !in t && Node(head, s, i) != other
  {
  }

  lemma OneMoves<T>(all: seq<T>, before: seq<T>, k: nat)
    requires k < |all|
    ensures all[k..][0] == all[k] && all[k..][1..] == all[k + 1..]
    ensures before + all[..k] + [all[k]] == before + all[..k + 1]
  {
  }

  lemma InAll<T>(all: seq<T>, before: seq<T>, k: nat)
    requires k <= |all|
    ensures forall e :: e in all[k..] ==> e in all
    ensures forall e :: e in before + all[..k] ==> e in before || e in all
  {
  }

  class Loop {
    const timerList: Event
    const pendingList: Event
    ghost var timers: seq<Event>
    ghost var pending: seq<Event>

    /** The two lists are well formed and have no event in common. */
    ghost predicate Linked()
      reads this, timerList, pendingList, timers, pending
    {
      && timerList != pendingList
      && Ring(timerList, timers) && Ring(pendingList, pending)
      && pendingList !in timers && timerList !in pending
      && forall e :: e in timers ==> e !in pending
    }

    ghost predicate Valid()
      reads this, timerList, pendingList, timers, pending
    {
      && Linked()
      && (forall i :: 0 <= i < |timers| ==> Normal(timers[i].timeout))
      && Sorted(View())
    }

    /** The timer list as the scheduler's specification sees it. */
    ghost function View(): (r: seq<Timer>)
      reads this, timers
      ensures |r| == |timers|
      ensures forall i :: 0 <= i < |r| ==> r[i] == Timer(timers[i].id, Micros(timers[i].timeout))
    {
      TimersOfEvents(timers)
    }

    /** ril_event_init */
    constructor ()
      ensures Valid() && timers == [] && pending == []
      ensures fresh(timerList) && fresh(pendingList)
    {
      var t := new Event(0, -1);
      var p := new Event(0, -1);
      t.next, t.prev, p.next, p.prev := t, t, p, p;
      timerList, pendingList, timers, pending := t, p, [], [];
    }

    /** ril_timer_add with a relative time. */
    method TimerAdd(ev: Event, now: TimeVal, relative: TimeVal)
      requires Valid() && Normal(now) && Normal(relative)
      requires ev != timerList && ev != pendingList && ev !in timers && ev !in pending
      modifies this`timers, ev, timerList, timers
      ensures Valid() && pending == old(pending)
      ensures View() == Insert(old(View()), Timer(ev.id, Micros(now) + Micros(relative)))
      ensures var k := InsertionPoint(old(View()), Micros(now) + Micros(relative));
        timers == old(timers)[..k] + [ev] + old(timers)[k..]
    {
      ghost var view := View();
      ev.fd := -1;
      TimeValIsMicros(now, relative);
      ev.timeout := Scheduler.TimerAdd(now, relative);
      assert View() == view;
      InsertTimer(ev);
    }

    method InsertTimer(ev: Event)
      requires Valid() && Normal(ev.timeout)
      requires ev != timerList && ev != pendingList && ev !in timers && ev !in pending
      modifies this`timers, ev`next, ev`prev, timerList`next, timerList`prev,
        (set e | e in timers)`next, (set e | e in timers)`prev
      ensures Valid() && pending == old(pending)
      ensures View() == Insert(old(View()), Timer(ev.id, Micros(ev.timeout)))
      ensures var k := InsertionPoint(old(View()), Micros(ev.timeout));
        timers == old(timers)[..k] + [ev] + old(timers)[k..]
    {
      InsertKeepsSorted(View(), Timer(ev.id, Micros(ev.timeout)));
      var list: Event;
      ghost var k: nat;
      list, k := FindPosition(ev.timeout);
      LinkTimer(ev, list, k);
    }

    method LinkTimer(ev: Event, at: Event, ghost k: nat)
      requires Linked() && k <= |timers| && at == Node(timerList, timers, k)
      requires forall i :: 0 <= i < |timers| ==> Normal(timers[i].timeout)
      requires Normal(ev.timeout)
      requires ev != timerList && ev != pendingList && ev !in timers && ev !in pending
      modifies this`timers, ev`next, ev`prev, timerList`next, timerList`prev,
        (set e | e in timers)`next, (set e | e in timers)`prev
      ensures Linked() && forall i :: 0 <= i < |timers| ==> Normal(timers[i].timeout)
      ensures timers == old(timers)[..k] + [ev] + old(timers)[k..] && pending == old(pending)
      ensures View() == old(View())[..k] + [Timer(ev.id, Micros(ev.timeout))] + old(View())[k..]
    {
      ghost var view := View();
      Link(ev, at, k);
      assert View() == view[..k] + [Timer(ev.id, Micros(ev.timeout))] + view[k..];
    }

    method Link(ev: Event, at: Event, ghost k: nat)
      requires Linked() && k <= |timers| && at == Node(timerList, timers, k)
      requires ev != timerList && ev != pendingList && ev !in timers && ev !in pending
      modifies this`timers, ev`next, ev`prev, timerList`next, timerList`prev,
        (set e | e in timers)`next, (set e | e in timers)`prev
      ensures Linked() && timers == old(timers)[..k] + [ev] + old(timers)[k..]
    {
      Apart(timerList, timers, pendingList, pending);
      AddToList(ev, at, timerList, timers, k);
      timers := timers[..k] + [ev] + timers[k..];
    }

    /** The loop of ril_timer_add that keeps the list sorted. */
    method FindPosition(timeout: TimeVal) returns (list: Event, ghost k: nat)
      requires Valid() && Normal(timeout)
      ensures k == InsertionPoint(View(), Micros(timeout)) && list == Node(timerList, timers, k)
    {
      assert Node(timerList, timers, -1).next == Node(timerList, timers, 0);
      list := timerList.next;
      k := 0;
      while Earlier(list.timeout, timeout) && list != timerList
        invariant k <= |timers| && list == Node(timerList, timers, k)
        invariant forall i :: 0 <= i < k ==> View()[i].deadline < Micros(timeout)
        decreases |timers| - k
      {
        TimeValIsMicros(list.timeout, timeout);
        assert Node(timerList, timers, k).next == Node(timerList, timers, k + 1);
        list := list.next;
        k := k + 1;
      }
      if k < |timers| {
        TimeValIsMicros(list.timeout, timeout);
      }
      InsertionPointIs(View(), Micros(timeout), k);
    }

    /** The first k timers of `all` have moved behind `before`. */
    ghost predicate Moved(all: seq<Event>, view: seq<Timer>, before: seq<Event>, k: nat)
      reads this, timers
    {
      && k <= |all| == |view|
      && timers == all[k..] && View() == view[k..] && pending == before + all[..k]
    }

    /** processTimeouts: the expired timers move, in order, to the end of the pending list. */
    method ProcessTimeouts(now: TimeVal)
      requires Valid() && Normal(now)
      modifies this`timers, this`pending, timerList, pendingList, timers, pending
      ensures Valid()
      ensures var k := ExpiredCount(old(View()), Micros(now));
        && View() == old(View())[k..] && timers == old(timers)[k..]
        && pending == old(pending) + old(timers)[..k]
    {
      ghost var view, all, before := View(), timers, pending;
      ghost var k := 0;
      var tev := FirstTimer();
      while tev != timerList && Earlier(tev.timeout, now)
        invariant Valid() && tev == Node(timerList, timers, 0) && Moved(all, view, before, k)
        invariant forall i :: 0 <= i < k ==> view[i].deadline < Micros(now)
        decreases |all| - k
      {
        IsEarlier(tev, now, view, k);
        InAll(all, before, k);
        tev := MoveOne(tev, all, view, before, k);
        k := k + 1;
      }
      if k < |all| {
        IsEarlier(tev, now, view, k);
      }
      InsertionPointIs(view, Micros(now), k);
    }

    /** p_next of the list's head. */
    method FirstTimer() returns (tev: Event)
      requires Linked()
      ensures tev == Node(timerList, timers, 0)
    {
      assert Node(timerList, timers, -1).next == Node(timerList, timers, 0);
      tev := timerList.next;
    }

    lemma IsEarlier(tev: Event, now: TimeVal, view: seq<Timer>, k: nat)
      requires Valid() && Normal(now) && timers != [] && tev == timers[0]
      requires k < |view| && View() == view[k..]
      ensures Earlier(tev.timeout, now) <==> view[k].deadline < Micros(now)
    {
      TimeValIsMicros(tev.timeout, now);
      assert View()[0] == view[k];
    }

    method MoveOne(tev: Event, ghost all: seq<Event>, ghost view: seq<Timer>, ghost before: seq<Event>, ghost k: nat)
      returns (next: Event)
      requires Valid() && k < |all| && Moved(all, view, before, k) && tev == timers[0]
      modifies this`timers, this`pending, timerList, pendingList, timers, pending
      ensures Valid() && next == Node(timerList, timers, 0) && Moved(all, view, before, k + 1)
    {
      MoveFirst(tev);
      OneMoves(all, before, k);
      assert view[k..][1..] == view[k + 1..];
      next := FirstTimer();
    }

    /** The body of the loop above: the first timer leaves its list for the end of the other. */
    method MoveFirst(tev: Event)
      requires Valid() && timers != [] && tev == timers[0]
      modifies this`timers, this`pending, timerList, pendingList, timers, pending
      ensures Valid()
      ensures timers == old(timers)[1..] && pending == old(pending) + [tev]
      ensures View() == old(View())[1..]
    {
      ghost var view := View();
      Relink(tev);
      assert forall i :: 0 <= i < |timers| ==> timers[i] == old(timers)[i + 1];
      assert View() == view[1..];
    }

    method Relink(tev: Event)
      requires Linked() && timers != [] && tev == timers[0]
      modifies this`timers, this`pending, timerList`next, timerList`prev, pendingList`next,
        pendingList`prev, (set e | e in timers)`next, (set e | e in timers)`prev,
        (set e | e in pending)`next, (set e | e in pending)`prev
      ensures Linked()
      ensures timers == old(timers)[1..] && pending == old(pending) + [tev]
    {
      Detach(tev);
      AppendPending(tev);
    }

    method Detach(tev: Event)
      requires Linked() && timers != [] && tev == timers[0]
      modifies this`timers, timerList`next, timerList`prev,
        (set e | e in timers)`next, (set e | e in timers)`prev
      ensures Linked() && timers == old(timers)[1..]
      ensures tev !in timers && tev !in pending && tev != timerList && tev != pendingList
    {
      Apart(timerList, timers, pendingList, pending);
      Apart(pendingList, pending, timerList, timers);
      RemoveFromList(tev, timerList, timers, 0);
      ghost var rest := timers[1..];
      assert timers[..0] + timers[1..] == rest;
      assert Ring(pendingList, pending);
      timers := rest;
    }

    method AppendPending(ev: Event)
      requires Linked() && ev !in timers && ev !in pending && ev != timerList && ev != pendingList
      modifies this`pending, ev`next, ev`prev, pendingList`next, pendingList`prev,
        (set e | e in pending)`next, (set e | e in pending)`prev
      ensures Linked() && pending == old(pending) + [ev]
    {
      assert forall i :: -1 <= i <= |pending| ==>
        Node(pendingList, pending, i) !in timers && Node(pendingList, pending, i) != timerList;
      assert forall i :: -1 <= i <= |timers| ==>
        Node(timerList, timers, i) !in pending && Node(timerList, timers, i) != ev;
      AddToList(ev, pendingList, pendingList, pending, |pending|);
      assert Ring(timerList, timers);
      assert pending[..|pending|] + [ev] + pending[|pending|..] == pending + [ev];
      pending := pending + [ev];
    }

    /** firePending: the pending events leave their list one by one, in order. */
    method FirePending() returns (fired: seq<Event>)
      requires Valid()
      modifies this`pending, pendingList, pending
      ensures Valid() && timers == old(timers) && View() == old(View())
      ensures fired == old(pending) && pending == []
    {
      ghost var all, k := pending, 0;
      fired := [];
      var ev := pendingList.next;
      assert Node(pendingList, pending, -1).next == Node(pendingList, pending, 0);
      while ev != pendingList
        invariant Valid() && timers == old(timers) && View() == old(View())
        invariant k <= |all| && pending == all[k..] && fired == all[..k]
        invariant ev == Node(pendingList, pending, 0)
        decreases |all| - k
      {
        assert all[k..][0] == all[k] && all[k..][1..] == all[k + 1..];
        fired := fired + [ev];
        ev := FireFirst(ev);
        k := k + 1;
      }
    }

    /** The body of the loop above; the callback itself is opaque. */
    method FireFirst(ev: Event) returns (next: Event)
      requires Valid() && pending != [] && ev == pending[0]
      modifies this`pending, pendingList`next, pendingList`prev,
        (set e | e in pending)`next, (set e | e in pending)`prev
      ensures Valid() && View() == old(View())
      ensures pending == old(pending)[1..] && next == Node(pendingList, pending, 0)
    {
      ghost var view := View();
      next := UnlinkFirst(ev);
      assert View() == view;
    }

    method UnlinkFirst(ev: Event) returns (next: Event)
      requires Linked() && pending != [] && ev == pending[0]
      modifies this`pending, pendingList`next, pendingList`prev,
        (set e | e in pending)`next, (set e | e in pending)`prev
      ensures Linked() && pending == old(pending)[1..] && next == Node(pendingList, pending, 0)
    {
      assert Node(pendingList, pending, 0).next == Node(pendingList, pending, 1);
      assert forall i :: -1 <= i <= |pending| ==>
        Node(pendingList, pending, i) !in timers && Node(pendingList, pending, i) != timerList;
      next := ev.next;
      RemoveFromList(ev, pendingList, pending, 0);
      assert pending[..0] + pending[1..] == pending[1..];
      pending := pending[1..];
    }

    /** One turn of ril_event_loop, as far as timers go. */
    method Turn(now: TimeVal) returns (fired: seq<Event>)
      requires Valid() && pending == [] && Normal(now)
      modifies this`timers, this`pending, timerList, pendingList, timers
      ensures Valid() && pending == []
      ensures var k := ExpiredCount(old(View()), Micros(now));
        fired == old(timers)[..k] && View() == old(View())[k..]
    {
      ProcessTimeouts(now);
      fired := FirePending();
    }

    /** calcNextTimeout: how long select may sleep; nothing when no timer is listed. */
    method CalcNextTimeout(now: TimeVal) returns (some: bool, tv: TimeVal)
      requires Valid() && Normal(now)
      ensures some <==> timers != []
      ensures some ==>
        && Normal(tv)
        && Micros(tv) == Max(0, View()[0].deadline - Micros(now))
        && forall i :: 0 <= i < |View()| ==> View()[0].deadline <= View()[i].deadline
    {
      var tev := timerList.next;
      assert Node(timerList, timers, -1).next == Node(timerList, timers, 0);
      tv := TimeVal(0, 0);
      if tev == timerList {
        return false, tv;
      }
      some := true;
      TimeValIsMicros(now, tev.timeout);
      TimeValIsMicros(tev.timeout, now);
      assert View()[0].deadline == Micros(tev.timeout) && tev in timers;
      if Earlier(now, tev.timeout) {
        tv := TimerSub(tev.timeout, now);
      }
    }
  }
}
