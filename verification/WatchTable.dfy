/** The table of watched descriptors of the event loop (libril/ril_event.cpp), with the descriptor
    set and the bound that go to select. */
module WatchTable {
  import opened Options

  const MAX_FD_EVENTS := 8

  datatype Watch = Watch(id: nat, fd: nat, persist: bool)

  type Table = seq<Option<Watch>>

  predicate Watches(t: Table, fd: int) {
    exists i :: 0 <= i < |t| && t[i].Some? && t[i].value.fd == fd
  }

  /** nfds is one more than the largest watched descriptor; at most 1 if there is none. */
  predicate BoundIsTight(t: Table, nfds: int) {
    && (forall i :: 0 <= i < |t| && t[i].Some? ==> t[i].value.fd < nfds)
    && (nfds <= 1 || Watches(t, nfds - 1))
  }

  /** FD_ISSET holds for no others than the watched descriptors. */
  ghost predicate SetIsWatched(t: Table, readFds: set<int>) {
    forall fd :: fd in readFds ==> Watches(t, fd)
  }

  /** It holds for all of them, too. */
  ghost predicate SetIsExact(t: Table, readFds: set<int>) {
    forall fd :: fd in readFds <==> Watches(t, fd)
  }

  predicate IsReady(w: Option<Watch>, rfds: set<int>) {
    w.Some? && w.value.fd in rfds
  }

  function Taken(w: Option<Watch>, rfds: set<int>): seq<Watch> {
    if IsReady(w, rfds) then [w.value] else []
  }

  function Left(w: Option<Watch>, rfds: set<int>): Option<Watch> {
    if IsReady(w, rfds) && !w.value.persist then None else w
  }

  /** The first `n` ready watches of a table, in table order. */
  function Ready(t: Table, rfds: set<int>, n: int): seq<Watch> {
    if t == [] || n <= 0 then []
    else Taken(t[0], rfds) + Ready(t[1..], rfds, n - |Taken(t[0], rfds)|)
  }

  /** The table without those of them that do not persist. */
  function Unwatched(t: Table, rfds: set<int>, n: int): (r: Table)
    ensures |r| == |t|
  {
    if t == [] || n <= 0 then t
    else [Left(t[0], rfds)] + Unwatched(t[1..], rfds, n - |Taken(t[0], rfds)|)
  }

  function ReadyCount(t: Table, rfds: set<int>): nat {
    if t == [] then 0 else (if IsReady(t[0], rfds) then 1 else 0) + ReadyCount(t[1..], rfds)
  }

  /** When select's count covers all ready descriptors, each ready watch is taken exactly once; it
      stays watched iff it persists, and the others stay as they were. */
  lemma {:induction false} AllReadyAreTaken(t: Table, rfds: set<int>, n: int)
    requires n >= ReadyCount(t, rfds)
    ensures |Ready(t, rfds, n)| == ReadyCount(t, rfds)
    ensures forall w :: w in Ready(t, rfds, n) <==> w.fd in rfds && Some(w) in t
    ensures forall i :: 0 <= i < |t| ==>
      Unwatched(t, rfds, n)[i] == if IsReady(t[i], rfds) && !t[i].value.persist then None else t[i]
  {
    if t != [] {
      var taken := IsReady(t[0], rfds);
      assert t == [t[0]] + t[1..];
      if n > 0 {
        AllReadyAreTaken(t[1..], rfds, if taken then n - 1 else n);
      } else {
        AllReadyAreTaken(t[1..], rfds, n);
        assert Ready(t[1..], rfds, n) == [] && Unwatched(t[1..], rfds, n) == t[1..];
      }
    }
  }

  class WatchList {
    const table: array<Option<Watch>>
    var readFds: set<int>
    var nfds: int

    ghost predicate Valid()
      reads this, table
    {
      && table.Length == MAX_FD_EVENTS
      && BoundIsTight(table[..], nfds)
      && SetIsWatched(table[..], readFds)
    }

    /** ril_event_init */
    constructor ()
      ensures Valid() && fresh(table) && SetIsExact(table[..], readFds)
      ensures forall i :: 0 <= i < MAX_FD_EVENTS ==> table[i] == None
    {
      table := new Option<Watch>[MAX_FD_EVENTS](_ => None);
      readFds, nfds := {}, 0;
    }

    method FirstFree() returns (i: nat)
      requires Valid()
      ensures i <= MAX_FD_EVENTS && (i < MAX_FD_EVENTS ==> table[i] == None)
      ensures forall j :: 0 <= j < i ==> table[j].Some?
    {
      i := 0;
      while i < MAX_FD_EVENTS && table[i].Some?
        invariant i <= MAX_FD_EVENTS && forall j :: 0 <= j < i ==> table[j].Some?
      {
        i := i + 1;
      }
    }

    /** ril_event_add: the first free slot takes the event; a full table drops it without a word. */
    method Add(w: Watch) returns (index: int)
      requires Valid()
      modifies this, table
      ensures Valid() && (old(SetIsExact(table[..], readFds)) ==> SetIsExact(table[..], readFds))
      ensures index == -1 <==> forall i :: 0 <= i < MAX_FD_EVENTS ==> old(table[i]).Some?
      ensures index == -1 ==> table[..] == old(table[..]) && readFds == old(readFds)
      ensures index != -1 ==>
        && 0 <= index < MAX_FD_EVENTS && old(table[index]).None?
        && table[..] == old(table[..])[index := Some(w)] && readFds == old(readFds) + {w.fd}
    {
      var i := FirstFree();
      if i == MAX_FD_EVENTS {
        return -1;
      }
      AddedKeeps(table[..], i, w, nfds, readFds);
      table[i] := Some(w);
      readFds := readFds + {w.fd};
      if w.fd >= nfds {
        nfds := w.fd + 1;
      }
      index := i;
    }

    /** removeWatch: another watch of the same descriptor is not selected any more, so the set stays exact
        iff there is none. */
    method RemoveWatch(index: nat)
      requires Valid() && index < MAX_FD_EVENTS && table[index].Some?
      modifies this, table
      ensures Valid() && table[..] == old(table[..])[index := None]
      ensures readFds == old(readFds) - {old(table[index]).value.fd}
      ensures old(SetIsExact(table[..], readFds)) ==>
        (SetIsExact(table[..], readFds) <==> !Watches(table[..], old(table[index]).value.fd))
    {
      var fd := table[index].value.fd;
      RemovedKeeps(table[..], index, nfds, readFds);
      table[index] := None;
      readFds := readFds - {fd};
      if fd + 1 == nfds {
        var n := LargestFd();
        nfds := n + 1;
      }
    }

    /** The loop of removeWatch. */
    method LargestFd() returns (n: nat)
      requires table.Length == MAX_FD_EVENTS
      ensures BoundIsTight(table[..], n + 1)
    {
      n := 0;
      var i := 0;
      while i < MAX_FD_EVENTS
        invariant i <= MAX_FD_EVENTS
        invariant forall j :: 0 <= j < i && table[j].Some? ==> table[j].value.fd <= n
        invariant n == 0 || exists j :: 0 <= j < i && table[j].Some? && table[j].value.fd == n
      {
        if table[i].Some? && table[i].value.fd > n {
          n := table[i].value.fd;
        }
        i := i + 1;
      }
      if n > 0 {
        var k :| 0 <= k < MAX_FD_EVENTS && table[k].Some? && table[k].value.fd == n;
        assert table[..][k] == table[k];
      }
    }

    /** The body of the loop of processReadReadies: a ready watch is taken, and unwatched unless it
        persists. */
    method Visit(i: nat, rfds: set<int>) returns (taken: seq<Watch>)
      requires Valid() && i < MAX_FD_EVENTS
      modifies this, table
      ensures Valid() && taken == Taken(old(table[i]), rfds)
      ensures table[..] == old(table[..])[i := Left(old(table[i]), rfds)]
    {
      taken := [];
      if IsReady(table[i], rfds) {
        taken := [table[i].value];
        if !table[i].value.persist {
          RemoveWatch(i);
        }
      }
    }

    /** processReadReadies: the events that go to the pending list. */
    method ProcessReadReadies(rfds: set<int>, count: int) returns (pending: seq<Watch>)
      requires Valid()
      modifies this, table
      ensures Valid()
      ensures pending == Ready(old(table[..]), rfds, count)
      ensures table[..] == Unwatched(old(table[..]), rfds, count)
    {
      pending := [];
      var i, n := 0, count;
      ghost var all, front, rest := table[..], [], table[..];
      assert all == front + rest;
      while i < MAX_FD_EVENTS && n > 0
        invariant Valid() && i <= MAX_FD_EVENTS && |front| == i && table[..] == front + rest
        invariant IsHalfway(all, rfds, count, rest, n, pending, front)
      {
        LoopStep(all, rfds, count, rest, n, pending, front);
        OneVisited(front, rest, Left(rest[0], rfds));
        var taken := Visit(i, rfds);
        pending := pending + taken;
        n := n - |taken|;
        front, rest := front + [Left(rest[0], rfds)], rest[1..];
        i := i + 1;
      }
      LoopEnds(all, rfds, count, rest, n, pending, front);
    }
  }

  /** All watches but `rest` have been looked at, and n more may be taken. */
  predicate IsHalfway(t: Table, rfds: set<int>, count: int, rest: Table, n: int, pending: seq<Watch>, front: Table) {
    && pending + Ready(rest, rfds, n) == Ready(t, rfds, count)
    && front + Unwatched(rest, rfds, n) == Unwatched(t, rfds, count)
  }

  lemma OneVisited(front: Table, rest: Table, x: Option<Watch>)
    requires rest != []
    ensures (front + rest)[|front|] == rest[0] && (front + rest)[|front| := x] == front + [x] + rest[1..]
  {
  }

  lemma Associates<T>(a: seq<T>, b: seq<T>, c: seq<T>)
    ensures a + (b + c) == a + b + c
  {
  }

  lemma LoopStep(t: Table, rfds: set<int>, count: int, rest: Table, n: int, pending: seq<Watch>, front: Table)
    requires IsHalfway(t, rfds, count, rest, n, pending, front) && rest != [] && n > 0
    ensures var taken := Taken(rest[0], rfds);
      IsHalfway(t, rfds, count, rest[1..], n - |taken|, pending + taken, front + [Left(rest[0], rfds)])
  {
    var m := n - |Taken(rest[0], rfds)|;
    Associates(pending, Taken(rest[0], rfds), Ready(rest[1..], rfds, m));
    Associates(front, [Left(rest[0], rfds)], Unwatched(rest[1..], rfds, m));
  }

  lemma LoopEnds(t: Table, rfds: set<int>, count: int, rest: Table, n: int, pending: seq<Watch>, front: Table)
    requires IsHalfway(t, rfds, count, rest, n, pending, front) && (rest == [] || n <= 0)
    ensures pending == Ready(t, rfds, count) && front + rest == Unwatched(t, rfds, count)
  {
  }

  lemma AddedKeeps(t: Table, i: nat, w: Watch, nfds: int, readFds: set<int>)
    requires i < |t| && t[i] == None && BoundIsTight(t, nfds)
    ensures var u := t[i := Some(w)];
      && (SetIsWatched(t, readFds) ==> SetIsWatched(u, readFds + {w.fd}))
      && (SetIsExact(t, readFds) ==> SetIsExact(u, readFds + {w.fd}))
      && BoundIsTight(u, if w.fd >= nfds then w.fd + 1 else nfds)
  {
    var u := t[i := Some(w)];
    forall fd | Watches(t, fd) ensures Watches(u, fd) {
      var k :| 0 <= k < |t| && t[k].Some? && t[k].value.fd == fd;
      assert u[k] == t[k];
    }
    assert u[i] == Some(w) && Watches(u, w.fd);
    forall fd | Watches(u, fd) ensures fd == w.fd || Watches(t, fd) {
    }
  }

  lemma RemovedKeeps(t: Table, i: nat, nfds: int, readFds: set<int>)
    requires i < |t| && t[i].Some? && BoundIsTight(t, nfds)
    ensures var (u, fd) := (t[i := None], t[i].value.fd);
      && (SetIsWatched(t, readFds) ==> SetIsWatched(u, readFds - {fd}))
      && (SetIsExact(t, readFds) ==> (SetIsExact(u, readFds - {fd}) <==> !Watches(u, fd)))
      && (fd + 1 != nfds ==> BoundIsTight(u, nfds))
  {
    var (u, fd) := (t[i := None], t[i].value.fd);
    forall g | Watches(t, g) && g != fd ensures Watches(u, g) {
      var k :| 0 <= k < |t| && t[k].Some? && t[k].value.fd == g;
      assert u[k] == t[k];
    }
    forall g | Watches(u, g) ensures Watches(t, g) {
    }
    assert Watches(t, fd);
  }
}
