/** The list of requests that wait for their response (libril/ril.cpp): a singly linked list with
    requests pushed at the front and unlinked from anywhere when they are completed. */
module PendingRequests {
  import opened Options

  /** RequestInfo; a request's address stands for it, so ids are never used again. */
  datatype Request = Request(id: nat, acked: bool)

  /** A response, and whether the framework is to acknowledge it because it comes after an ack. */
  datatype Response = Response(id: nat, ackExpected: bool)

  /** `listed` has the newest request first; the rest is history. */
  datatype State = State(listed: seq<Request>, next: nat, acks: seq<nat>, responses: seq<Response>)

  datatype Step =
    | Add              // addRequestToList
    | Ack(id: nat)     // RIL_onRequestAck
    | Complete(id: nat)  // RIL_onRequestComplete

  /** Where a request is in the list; the length if it is not there. */
  function Find(listed: seq<Request>, id: nat): (k: nat)
    ensures k <= |listed| && (k < |listed| ==> listed[k].id == id)
    ensures forall i :: 0 <= i < k ==> listed[i].id != id
  {
    if listed == [] || listed[0].id == id then 0 else 1 + Find(listed[1..], id)
  }

  lemma {:induction false} FindIs(listed: seq<Request>, id: nat, k: nat)
    requires k <= |listed| && (k < |listed| ==> listed[k].id == id)
    requires forall i :: 0 <= i < k ==> listed[i].id != id
    ensures Find(listed, id) == k
  {
    if k > 0 {
      FindIs(listed[1..], id, k - 1);
    }
  }

  function Next(s: State, e: Step): State {
    match e
    case Add => s.(listed := [Request(s.next, false)] + s.listed, next := s.next + 1)
    case Ack(id) =>
      var k := Find(s.listed, id);
      if k == |s.listed| then s
      else s.(listed := s.listed[k := Request(id, true)], acks := s.acks + [id])
    case Complete(id) =>
      var k := Find(s.listed, id);
      if k == |s.listed| then s
      else s.(listed := s.listed[..k] + s.listed[k + 1..],
              responses := s.responses + [Response(id, s.listed[k].acked)])
  }

  function Run(s: State, es: seq<Step>): State
    decreases |es|
  {
    if es == [] then s else Run(Next(s, es[0]), es[1..])
  }

  const INIT := State([], 0, [], [])

  function Ids(listed: seq<Request>): (r: seq<nat>)
    ensures |r| == |listed| && forall i :: 0 <= i < |r| ==> r[i] == listed[i].id
  {
    seq(|listed|, i requires 0 <= i < |listed| => listed[i].id)
  }

  function Answered(responses: seq<Response>): (r: seq<nat>)
    ensures |r| == |responses| && forall i :: 0 <= i < |r| ==> r[i] == responses[i].id
  {
    seq(|responses|, i requires 0 <= i < |responses| => responses[i].id)
  }

  function Places(s: State): multiset<nat> {
    multiset(Ids(s.listed)) + multiset(Answered(s.responses))
  }

  /** Each request ever added is listed once, or answered once. */
  ghost predicate Partition(s: State) {
    forall id: nat :: Places(s)[id] == if id < s.next then 1 else 0
  }

  /** The list is in order, newest first, and knows which requests have been acknowledged; so do the
      responses. */
  predicate AcksAreKnown(s: State) {
    && (forall i, j :: 0 <= i < j < |s.listed| ==> s.listed[i].id > s.listed[j].id)
    && (forall i :: 0 <= i < |s.listed| ==> (s.listed[i].acked <==> s.listed[i].id in s.acks))
    && (forall i :: 0 <= i < |s.responses| ==> (s.responses[i].ackExpected <==> s.responses[i].id in s.acks))
    && (forall id :: id in s.acks ==> id < s.next)
  }

  ghost predicate Inv(s: State) {
    Partition(s) && AcksAreKnown(s)
  }

  lemma OnePlace(s: State, id: nat)
    requires Partition(s)
    ensures multiset(Ids(s.listed))[id] + multiset(Answered(s.responses))[id] == if id < s.next then 1 else 0
    ensures id in Ids(s.listed) || id in Answered(s.responses) <==> id < s.next
    ensures !(id in Ids(s.listed) && id in Answered(s.responses))
  {
    assert Places(s)[id] == if id < s.next then 1 else 0;
  }

  lemma FoundIff(listed: seq<Request>, id: nat)
    ensures Find(listed, id) < |listed| <==> id in Ids(listed)
  {
    var k := Find(listed, id);
    if k < |listed| {
      assert Ids(listed)[k] == id;
    }
  }

  lemma AddKeepsPartition(s: State)
    requires Partition(s)
    ensures Partition(Next(s, Add))
  {
    var n := Next(s, Add);
    assert Ids(n.listed) == [s.next] + Ids(s.listed);
    assert multiset(Ids(n.listed)) == multiset{s.next} + multiset(Ids(s.listed));
    assert Places(n) == Places(s) + multiset{s.next};
  }

  lemma AddKeepsAcks(s: State)
    requires Inv(s)
    ensures AcksAreKnown(Next(s, Add))
  {
    var n := Next(s, Add);
    forall i | 0 <= i < |s.listed| ensures s.listed[i].id < s.next {
      assert Ids(s.listed)[i] == s.listed[i].id;
      OnePlace(s, s.listed[i].id);
    }
    assert forall i :: 0 < i < |n.listed| ==> n.listed[i] == s.listed[i - 1];
  }

  lemma AckKeepsInv(s: State, id: nat)
    requires Inv(s)
    ensures Inv(Next(s, Ack(id)))
  {
    var k, n := Find(s.listed, id), Next(s, Ack(id));
    if k < |s.listed| {
      FoundIff(s.listed, id);
      OnePlace(s, id);
      assert Ids(n.listed) == Ids(s.listed);
      assert Places(n) == Places(s);
      forall i | 0 <= i < |s.responses| ensures s.responses[i].id != id {
        assert Answered(s.responses)[i] == s.responses[i].id;
      }
    }
  }

  lemma IdsWithout(listed: seq<Request>, k: nat)
    requires k < |listed|
    ensures multiset(Ids(listed)) == multiset(Ids(listed[..k] + listed[k + 1..])) + multiset{listed[k].id}
  {
    var (front, back) := (Ids(listed[..k]), Ids(listed[k + 1..]));
    OneBetween(front, listed[k].id, back);
    assert Ids(listed) == front + [listed[k].id] + back;
    assert Ids(listed[..k] + listed[k + 1..]) == front + back;
  }

  lemma OneMoreAnswered(responses: seq<Response>, r: Response)
    ensures multiset(Answered(responses + [r])) == multiset(Answered(responses)) + multiset{r.id}
  {
    assert Answered(responses + [r]) == Answered(responses) + [r.id];
  }

  lemma SamePlaces(s: State, n: State)
    requires Partition(s) && Places(n) == Places(s) && n.next == s.next
    ensures Partition(n)
  {
    forall id: nat ensures Places(n)[id] == if id < n.next then 1 else 0 {
      assert Places(s)[id] == if id < s.next then 1 else 0;
    }
  }

  /** A completion moves the request from the list to the responses. */
  lemma CompleteMoves(s: State, id: nat)
    ensures Places(Next(s, Complete(id))) == Places(s)
  {
    var k := Find(s.listed, id);
    if k < |s.listed| {
      var (rest, r) := (s.listed[..k] + s.listed[k + 1..], Response(id, s.listed[k].acked));
      IdsWithout(s.listed, k);
      OneMoreAnswered(s.responses, r);
      MovedOver(multiset(Ids(s.listed)), multiset(Ids(rest)), multiset(Answered(s.responses)),
                multiset(Answered(s.responses + [r])), id);
    }
  }

  lemma CompleteKeepsPartition(s: State, id: nat)
    requires Partition(s)
    ensures Partition(Next(s, Complete(id)))
  {
    CompleteMoves(s, id);
    SamePlaces(s, Next(s, Complete(id)));
  }

  lemma MovedOver<T>(a: multiset<T>, a': multiset<T>, b: multiset<T>, b': multiset<T>, x: T)
    requires a == a' + multiset{x} && b' == b + multiset{x}
    ensures a' + b' == a + b
  {
  }

  lemma Without(listed: seq<Request>, k: nat, i: nat)
    requires k < |listed| && i < |listed| - 1
    ensures (listed[..k] + listed[k + 1..])[i] == listed[if i < k then i else i + 1]
  {
  }

  lemma CompleteKeepsListed(s: State, id: nat)
    requires AcksAreKnown(s)
    ensures var n := Next(s, Complete(id));
      && (forall i, j :: 0 <= i < j < |n.listed| ==> n.listed[i].id > n.listed[j].id)
      && (forall i :: 0 <= i < |n.listed| ==> (n.listed[i].acked <==> n.listed[i].id in n.acks))
  {
    var k, n := Find(s.listed, id), Next(s, Complete(id));
    if k < |s.listed| {
      forall i | 0 <= i < |n.listed| ensures n.listed[i] == s.listed[if i < k then i else i + 1] {
        Without(s.listed, k, i);
      }
    }
  }

  lemma CompleteKeepsResponses(s: State, id: nat)
    requires AcksAreKnown(s)
    ensures var n := Next(s, Complete(id));
      && (forall i :: 0 <= i < |n.responses| ==> (n.responses[i].ackExpected <==> n.responses[i].id in n.acks))
      && (forall id :: id in n.acks ==> id < n.next)
  {
    var k := Find(s.listed, id);
    if k < |s.listed| {
      assert s.listed[k].acked <==> id in s.acks;
    }
  }

  lemma CompleteKeepsAcks(s: State, id: nat)
    requires AcksAreKnown(s)
    ensures AcksAreKnown(Next(s, Complete(id)))
  {
    CompleteKeepsListed(s, id);
    CompleteKeepsResponses(s, id);
  }

  lemma {:induction false} RunKeepsInv(s: State, es: seq<Step>)
    requires Inv(s)
    ensures Inv(Run(s, es))
    decreases |es|
  {
    if es != [] {
      match es[0] {
        case Add =>
          AddKeepsPartition(s);
          AddKeepsAcks(s);
        case Ack(id) => AckKeepsInv(s, id);
        case Complete(id) =>
          CompleteKeepsPartition(s, id);
          CompleteKeepsAcks(s, id);
      }
      RunKeepsInv(Next(s, es[0]), es[1..]);
    }
  }

  /** In every run, whatever tokens come back: a request is answered at most once; it is answered or
      listed, never both; and its response asks for an ack iff it has itself been acknowledged. */
  lemma EachRequestIsAnsweredOnce(es: seq<Step>, id: nat, i: nat, j: nat)
    ensures var s := Run(INIT, es);
      && (id < s.next <==> id in Ids(s.listed) || id in Answered(s.responses))
      && !(id in Ids(s.listed) && id in Answered(s.responses))
      && (i < j < |s.responses| ==> s.responses[i].id != s.responses[j].id)
      && (i < |s.responses| ==> (s.responses[i].ackExpected <==> s.responses[i].id in s.acks))
  {
    RunKeepsInv(INIT, es);
    var s := Run(INIT, es);
    OnePlace(s, id);
    if i < j < |s.responses| && s.responses[i].id == s.responses[j].id {
      OnePlace(s, s.responses[i].id);
      TwiceCounted(Answered(s.responses), i, j);
    }
  }

  /** Acks and completions of a request that is not listed -- never added, or answered before -- are
      refused and change nothing. */
  lemma UnknownTokensAreRefused(s: State, id: nat)
    requires Inv(s) && (id >= s.next || id in Answered(s.responses))
    ensures Next(s, Ack(id)) == s && Next(s, Complete(id)) == s
  {
    OnePlace(s, id);
    FoundIff(s.listed, id);
  }

  // ---------- the code ----------

  class RequestInfo {
    const id: nat
    var acked: bool
    var next: RequestInfo?

    constructor (id: nat, next: RequestInfo?)
      ensures this.id == id && !acked && this.next == next
    {
      this.id, this.acked, this.next := id, false, next;
    }
  }

  function Node(nodes: seq<RequestInfo>, i: nat): RequestInfo? {
    if i < |nodes| then nodes[i] else null
  }

  /** `nodes` are the requests that hang off `head`. */
  ghost predicate Chain(head: RequestInfo?, nodes: seq<RequestInfo>)
    reads nodes
  {
    && head == Node(nodes, 0)
    && (forall i, j :: 0 <= i < j < |nodes| ==> nodes[i] != nodes[j])
    && forall i :: 0 <= i < |nodes| ==> nodes[i].next == Node(nodes, i + 1)
  }

  lemma Prepended(head: RequestInfo, rest: seq<RequestInfo>)
    requires Chain(head.next, rest) && head !in rest
    ensures Chain(head, [head] + rest)
  {
    var nodes := [head] + rest;
    assert forall i :: 0 < i < |nodes| ==> nodes[i] == rest[i - 1];
    forall i | 0 < i < |nodes| ensures nodes[i].next == Node(nodes, i + 1) {
      assert rest[i - 1].next == Node(rest, i);
    }
  }

  /** *ppCur = (*ppCur)->p_next: the k-th node leaves the list. */
  method Unlink(head: RequestInfo?, prev: RequestInfo?, cur: RequestInfo,
                ghost nodes: seq<RequestInfo>, ghost k: nat) returns (newHead: RequestInfo?)
    requires Chain(head, nodes) && k < |nodes| && cur == nodes[k]
    requires if k == 0 then prev == null else prev == nodes[k - 1]
    modifies (set n | n in nodes)`next
    ensures Chain(newHead, nodes[..k] + nodes[k + 1..])
  {
    assert cur.next == Node(nodes, k + 1);
    newHead := head;
    if prev == null {
      newHead := cur.next;
    } else {
      prev.next := cur.next;
    }
    UnlinkedChain(head, nodes, k, newHead);
  }

  /** The chain without its k-th node, once the link to that node leads past it. */
  lemma UnlinkedChain(head: RequestInfo?, nodes: seq<RequestInfo>, k: nat, newHead: RequestInfo?)
    requires k < |nodes| && head == Node(nodes, 0)
    requires forall i, j :: 0 <= i < j < |nodes| ==> nodes[i] != nodes[j]
    requires forall i :: 0 <= i < |nodes| && i != k - 1 ==> nodes[i].next == Node(nodes, i + 1)
    requires if k == 0 then newHead == Node(nodes, 1) else newHead == head && nodes[k - 1].next == Node(nodes, k + 1)
    ensures Chain(newHead, nodes[..k] + nodes[k + 1..])
  {
    var rest := nodes[..k] + nodes[k + 1..];
    forall i: nat ensures Node(rest, i) == Node(nodes, if i < k then i else i + 1) {
      NodeWithout(nodes, k, i);
    }
    forall i | 0 <= i < |rest| ensures rest[i].next == Node(rest, i + 1) {
      var j := if i < k then i else i + 1;
      assert Node(rest, i) == Node(nodes, j) && nodes[j].next == Node(nodes, if j == k - 1 then k + 1 else j + 1);
    }
    StillDistinct(nodes, k);
  }

  lemma NodeWithout(nodes: seq<RequestInfo>, k: nat, i: nat)
    requires k < |nodes|
    ensures Node(nodes[..k] + nodes[k + 1..], i) == Node(nodes, if i < k then i else i + 1)
  {
  }

  lemma StillDistinct<T>(nodes: seq<T>, k: nat)
    requires k < |nodes| && forall i, j :: 0 <= i < j < |nodes| ==> nodes[i] != nodes[j]
    ensures var rest := nodes[..k] + nodes[k + 1..]; forall i, j :: 0 <= i < j < |rest| ==> rest[i] != rest[j]
  {
    var rest := nodes[..k] + nodes[k + 1..];
    assert forall i :: 0 <= i < |rest| ==> rest[i] == nodes[if i < k then i else i + 1];
  }

  ghost predicate Mirrors(nodes: seq<RequestInfo>, listed: seq<Request>)
    reads nodes
  {
    && |listed| == |nodes|
    && forall i :: 0 <= i < |nodes| ==> listed[i] == Request(nodes[i].id, nodes[i].acked)
  }

  lemma MirrorsWithout(nodes: seq<RequestInfo>, listed: seq<Request>, k: nat)
    requires Mirrors(nodes, listed) && k < |nodes|
    ensures Mirrors(nodes[..k] + nodes[k + 1..], listed[..k] + listed[k + 1..])
  {
  }

  lemma CompletedIs(s: State, id: nat, k: nat, n: State)
    requires k == Find(s.listed, id)
    requires if k == |s.listed| then n == s
             else n == State(s.listed[..k] + s.listed[k + 1..], s.next, s.acks,
                             s.responses + [Response(s.listed[k].id, s.listed[k].acked)])
    ensures n == Next(s, Complete(id))
  {
  }

  class PendingList {
    var head: RequestInfo?
    var nextId: nat
    ghost var nodes: seq<RequestInfo>
    ghost var listed: seq<Request>
    ghost var acks: seq<nat>
    ghost var responses: seq<Response>

    ghost predicate Valid()
      reads this, nodes
    {
      Chain(head, nodes) && Mirrors(nodes, listed)
    }

    ghost function View(): State
      reads this
    {
      State(listed, nextId, acks, responses)
    }

    constructor ()
      ensures Valid() && View() == INIT
    {
      head, nextId, nodes, listed, acks, responses := null, 0, [], [], [], [];
    }

    method AddRequestToList() returns (r: RequestInfo)
      requires Valid()
      modifies this
      ensures Valid() && View() == Next(old(View()), Add) && nodes == [r] + old(nodes)
    {
      r := new RequestInfo(nextId, head);
      Prepended(r, nodes);
      head, nextId := r, nextId + 1;
      nodes, listed := [r] + nodes, [Request(r.id, false)] + listed;
    }

    /** The loop of checkAndDequeueRequestInfoIfAck: the request, and the node whose link points to it
        (null for the head). */
    method FindLink(id: nat) returns (prev: RequestInfo?, cur: RequestInfo?, ghost k: nat)
      requires Valid()
      ensures k == Find(listed, id) && cur == Node(nodes, k)
      ensures if k == 0 then prev == null else prev == nodes[k - 1]
    {
      prev, cur, k := null, head, 0;
      while cur != null && cur.id != id
        invariant k <= |nodes| && cur == Node(nodes, k)
        invariant if k == 0 then prev == null else prev == nodes[k - 1]
        invariant forall i :: 0 <= i < k ==> listed[i].id != id
        decreases |nodes| - k
      {
        assert nodes[k].next == Node(nodes, k + 1);
        prev, cur := cur, cur.next;
        k := k + 1;
      }
      FindIs(listed, id, k);
    }

    /** RIL_onRequestAck */
    method OnRequestAck(id: nat) returns (known: bool)
      requires Valid()
      modifies this`acks, this`listed, (set n | n in nodes)`acked
      ensures Valid() && View() == Next(old(View()), Ack(id))
      ensures known <==> Find(old(listed), id) < |old(listed)|
    {
      var prev, cur, k := FindLink(id);
      known := cur != null;
      if cur != null {
        MarkAcked(cur, k);
        acks := acks + [id];
      }
    }

    method MarkAcked(cur: RequestInfo, ghost k: nat)
      requires Valid() && k < |nodes| && cur == nodes[k]
      modifies this`listed, cur`acked
      ensures Valid() && listed == old(listed)[k := Request(cur.id, true)]
    {
      cur.acked := true;
      listed := listed[k := Request(cur.id, true)];
    }

    /** RIL_onRequestComplete; `ackExpected` says that the wake lock is grabbed for the response. */
    method OnRequestComplete(id: nat) returns (known: bool, ackExpected: bool)
      requires Valid()
      modifies this`head, this`nodes, this`listed, this`responses, (set n | n in nodes)`next
      ensures Valid() && View() == Next(old(View()), Step.Complete(id))
      ensures known <==> Find(old(listed), id) < |old(listed)|
      ensures known ==> responses == old(responses) + [Response(id, ackExpected)]
    {
      ghost var s := View();
      var prev, cur, k := FindLink(id);
      known, ackExpected := cur != null, false;
      if cur != null {
        ackExpected := Complete(prev, cur, k);
      }
      CompletedIs(s, id, k, View());
    }

    method Complete(prev: RequestInfo?, cur: RequestInfo, ghost k: nat) returns (ackExpected: bool)
      requires Valid() && k < |nodes| && cur == nodes[k]
      requires if k == 0 then prev == null else prev == nodes[k - 1]
      modifies this`head, this`nodes, this`listed, this`responses, (set n | n in nodes)`next
      ensures Valid() && ackExpected == old(listed)[k].acked
      ensures listed == old(listed)[..k] + old(listed)[k + 1..]
      ensures responses == old(responses) + [Response(old(listed)[k].id, ackExpected)]
    {
      ackExpected := cur.acked;
      Remove(prev, cur, k);
      responses := responses + [Response(cur.id, ackExpected)];
    }

    method Remove(prev: RequestInfo?, cur: RequestInfo, ghost k: nat)
      requires Valid() && k < |nodes| && cur == nodes[k]
      requires if k == 0 then prev == null else prev == nodes[k - 1]
      modifies this`head, this`nodes, this`listed, (set n | n in nodes)`next
      ensures Valid() && listed == old(listed)[..k] + old(listed)[k + 1..]
    {
      ghost var was, l := nodes, listed;
      head := Unlink(head, prev, cur, was, k);
      MirrorsWithout(was, l, k);
      nodes := was[..k] + was[k + 1..];
      listed := l[..k] + l[k + 1..];
    }
  }
}
