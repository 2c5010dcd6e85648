/** The reassembly of warning messages from +SPLWRN: segments (sprd-ril/ril_sms.c), whose state lives
    in static variables from one segment to the next. */
module WarningSegments {
  import opened Options

  /** Segment ids count from 1. */
  datatype Segment = Segment(id: int, total: int, data: string)

  /** `pdus` is None for the NULL pointer. */
  datatype State = State(count: nat, dataLen: nat, pdus: Option<seq<Option<string>>>)

  /** A fault is an access outside of the array. */
  datatype Outcome = Fault | Done(next: State, text: Option<string>)

  const INIT := State(0, 0, None)

  const MAX_SEGMENTS := 10

  /** strncat of the pages that are there */
  function Join(pages: seq<Option<string>>): string {
    if pages == [] then ""
    else (if pages[0].Some? then pages[0].value else "") + Join(pages[1..])
  }

  function Blank(n: nat): (pages: seq<Option<string>>)
    ensures |pages| == n && forall i :: 0 <= i < n ==> pages[i] == None
  {
    seq(n, _ => None)
  }

  /** The allocation before the first segment; a negative size cannot be allocated. */
  function Allocated(s: State, g: Segment): State {
    if g.total < MAX_SEGMENTS && s.count == 0 then s.(pdus := if g.total < 0 then None else Some(Blank(g.total)))
    else s
  }

  function Stored(s: State, g: Segment): State
    requires s.pdus.Some? && 1 <= g.id <= |s.pdus.value|
  {
    State(s.count + 1, s.dataLen + |g.data|, Some(s.pdus.value[g.id - 1 := Some(g.data)]))
  }

  /** The last part: all segments are there, or are taken to be. */
  function Finished(s: State, total: int): Outcome {
    if s.count != total then Done(s, None)
    else if s.pdus.None? || |s.pdus.value| < s.count then Fault
    else Done(INIT, Some(Join(s.pdus.value[..s.count])))
  }

  function Receive(s: State, g: Segment): Outcome {
    var a := Allocated(s, g);
    if g.total < 0 && s.count == 0 then Done(a, None)
    else if g.id > g.total then Finished(a, g.total)
    else if a.pdus.None? || g.id < 1 || g.id > |a.pdus.value| then Fault
    else Finished(Stored(a, g), g.total)
  }

  function AsList(text: Option<string>): seq<string> {
    if text.Some? then [text.value] else []
  }

  function After(out: seq<string>, r: Option<(State, seq<string>)>): Option<(State, seq<string>)> {
    if r.None? then None else Some((r.value.0, out + r.value.1))
  }

  /** A run over segments: the state at the end and the texts passed on; None after a fault. */
  function Run(s: State, gs: seq<Segment>): Option<(State, seq<string>)>
    decreases |gs|
  {
    if gs == [] then Some((s, []))
    else
      var o := Receive(s, gs[0]);
      if o.Fault? then None else After(AsList(o.text), Run(o.next, gs[1..]))
  }

  lemma AfterAfter(a: seq<string>, b: seq<string>, r: Option<(State, seq<string>)>)
    ensures After(a, After(b, r)) == After(a + b, r) && After([], r) == r
  {
    if r.Some? {
      assert a + (b + r.value.1) == (a + b) + r.value.1;
      assert [] + r.value.1 == r.value.1;
    }
  }

  // ---------- one message ----------

  /** Segments of one message of n segments, with ids that may repeat. */
  predicate OfOneMessage(gs: seq<Segment>, n: nat) {
    forall i :: 0 <= i < |gs| ==> gs[i].total == n && 1 <= gs[i].id <= n
  }

  predicate DistinctIds(gs: seq<Segment>) {
    forall i, j :: 0 <= i < j < |gs| ==> gs[i].id != gs[j].id
  }

  /** The pages after some segments: each holds the data that came last for it. */
  function PagesOf(gs: seq<Segment>, n: nat): (pages: seq<Option<string>>)
    requires OfOneMessage(gs, n)
    ensures |pages| == n
  {
    if gs == [] then Blank(n)
    else
      var g := gs[|gs| - 1];
      PagesOf(gs[..|gs| - 1], n)[g.id - 1 := Some(g.data)]
  }

  /** A page is there iff one of the segments has its id; then it holds the data of such a segment. */
  lemma {:induction false} PageIs(gs: seq<Segment>, n: nat, i: nat)
    requires OfOneMessage(gs, n) && i < n
    ensures PagesOf(gs, n)[i].Some? <==> exists k :: 0 <= k < |gs| && gs[k].id == i + 1
    ensures PagesOf(gs, n)[i].Some? ==>
      exists k :: 0 <= k < |gs| && gs[k].id == i + 1 && PagesOf(gs, n)[i].value == gs[k].data
    decreases |gs|
  {
    if gs != [] {
      var (before, last) := (gs[..|gs| - 1], |gs| - 1);
      PageIs(before, n, i);
      assert forall k :: 0 <= k < last ==> before[k] == gs[k];
      if gs[last].id != i + 1 && PagesOf(gs, n)[i].Some? {
        var k :| 0 <= k < |before| && before[k].id == i + 1 && PagesOf(before, n)[i].value == before[k].data;
        assert gs[k].id == i + 1 && PagesOf(gs, n)[i].value == gs[k].data;
      }
    }
  }

  function Total(gs: seq<Segment>): nat {
    if gs == [] then 0 else Total(gs[..|gs| - 1]) + |gs[|gs| - 1].data|
  }

  /** The state in the middle of a message. */
  function Middle(gs: seq<Segment>, n: nat): State
    requires OfOneMessage(gs, n)
  {
    if gs == [] then INIT else State(|gs|, Total(gs), Some(PagesOf(gs, n)))
  }

  /** What one more segment adds. */
  lemma OneMoreSegment(gs: seq<Segment>, g: Segment, n: nat)
    requires OfOneMessage(gs + [g], n)
    ensures OfOneMessage(gs, n) && g.total == n && 1 <= g.id <= n
    ensures PagesOf(gs + [g], n) == PagesOf(gs, n)[g.id - 1 := Some(g.data)]
    ensures Total(gs + [g]) == Total(gs) + |g.data|
  {
    var all := gs + [g];
    assert all[|gs|] == g && all[..|all| - 1] == gs;
    assert forall i :: 0 <= i < |gs| ==> all[i] == gs[i];
  }

  lemma AllocatedInMiddle(gs: seq<Segment>, g: Segment, n: nat)
    requires 0 < n < MAX_SEGMENTS && OfOneMessage(gs, n) && g.total == n
    ensures Allocated(Middle(gs, n), g) == State(|gs|, Total(gs), Some(PagesOf(gs, n)))
  {
  }

  lemma ReceiveInMiddle(gs: seq<Segment>, g: Segment, n: nat)
    requires 0 < n < MAX_SEGMENTS && |gs| < n && OfOneMessage(gs + [g], n)
    ensures OfOneMessage(gs, n)
    ensures Receive(Middle(gs, n), g) ==
      if |gs| + 1 < n then Done(Middle(gs + [g], n), None)
      else Done(INIT, Some(Join(PagesOf(gs + [g], n))))
  {
    OneMoreSegment(gs, g, n);
    AllocatedInMiddle(gs, g, n);
    FinishedInMiddle(State(|gs| + 1, Total(gs + [g]), Some(PagesOf(gs + [g], n))), n);
  }

  lemma FinishedInMiddle(s: State, n: nat)
    requires s.pdus.Some? && |s.pdus.value| == n && s.count <= n
    ensures Finished(s, n) == if s.count < n then Done(s, None) else Done(INIT, Some(Join(s.pdus.value)))
  {
    assert s.pdus.value[..n] == s.pdus.value;
  }

  /** Any n segments with the ids 1 to n, repeated or not, make one text, passed on at the last of
      them, and leave the static variables as they were. */
  lemma {:induction false} MessageMakesOneText(before: seq<Segment>, gs: seq<Segment>, n: nat)
    requires 0 < n < MAX_SEGMENTS && OfOneMessage(before + gs, n) && |before| + |gs| == n && gs != []
    ensures OfOneMessage(before, n)
    ensures Run(Middle(before, n), gs) == Some((INIT, [Join(PagesOf(before + gs, n))]))
    decreases |gs|
  {
    var g, rest := gs[0], gs[1..];
    assert before + gs == (before + [g]) + rest;
    assert forall i :: 0 <= i < |before| + 1 ==> (before + [g])[i] == (before + gs)[i];
    ReceiveInMiddle(before, g, n);
    if rest == [] {
      assert before + [g] == before + gs;
      assert Run(INIT, rest) == Some((INIT, []));
      var text := Join(PagesOf(before + gs, n));
      assert [text] + [] == [text];
    } else {
      MessageMakesOneText(before + [g], rest, n);
      var text := Join(PagesOf(before + gs, n));
      AfterAfter([], [], Some((INIT, [text])));
    }
  }

  // ---------- which pages are there ----------

  function Ids(gs: seq<Segment>): set<int> {
    set k | 0 <= k < |gs| :: gs[k].id
  }

  lemma {:induction false} CountIds(gs: seq<Segment>)
    ensures |Ids(gs)| <= |gs|
    ensures |Ids(gs)| == |gs| <==> DistinctIds(gs)
  {
    if gs != [] {
      var front, g := gs[..|gs| - 1], gs[|gs| - 1];
      CountIds(front);
      IdsSnoc(front, g);
      assert gs == front + [g];
      if g.id in Ids(front) {
        assert Ids(front) + {g.id} == Ids(front);
        var k :| 0 <= k < |front| && front[k].id == g.id;
        assert gs[k].id == gs[|gs| - 1].id;
      } else {
        assert forall k :: 0 <= k < |front| ==> front[k].id in Ids(front);
        assert DistinctIds(front) <==> DistinctIds(gs);
      }
    }
  }

  lemma IdsSnoc(front: seq<Segment>, g: Segment)
    ensures Ids(front + [g]) == Ids(front) + {g.id}
  {
    var gs := front + [g];
    assert gs[|front|] == g && forall k :: 0 <= k < |front| ==> gs[k] == front[k];
    forall x | x in Ids(front) + {g.id} ensures x in Ids(gs) {
      if x in Ids(front) {
        var k :| 0 <= k < |front| && front[k].id == x;
        assert gs[k].id == x;
      }
    }
  }

  function Numbers(n: nat): (s: set<int>)
    ensures |s| == n && forall x :: x in s <==> 1 <= x <= n
  {
    if n == 0 then {} else Numbers(n - 1) + {n}
  }

  lemma SubsetIsAll(a: set<int>, b: set<int>)
    requires a <= b
    ensures |a| <= |b| && (|a| == |b| ==> a == b)
  {
    assert b == a + (b - a) && |b| == |a| + |b - a|;
  }

  lemma AllIdsIff(gs: seq<Segment>, n: nat)
    requires OfOneMessage(gs, n) && |gs| == n
    ensures Ids(gs) == Numbers(n) <==> DistinctIds(gs)
  {
    CountIds(gs);
    SubsetIsAll(Ids(gs), Numbers(n));
  }

  lemma PageIsThereIff(gs: seq<Segment>, n: nat, i: nat)
    requires OfOneMessage(gs, n) && i < n
    ensures PagesOf(gs, n)[i].Some? <==> i + 1 in Ids(gs)
  {
  }

  /** After n segments no page is missing iff no id came twice: the count alone does not tell. */
  lemma AllPagesThereIff(gs: seq<Segment>, n: nat)
    requires OfOneMessage(gs, n) && |gs| == n
    ensures (forall i :: 0 <= i < n ==> PagesOf(gs, n)[i].Some?) <==> DistinctIds(gs)
  {
    AllIdsIff(gs, n);
    forall i | 0 <= i < n ensures PagesOf(gs, n)[i].Some? <==> i + 1 in Ids(gs) {
      PageIsThereIff(gs, n, i);
    }
    assert Ids(gs) <= Numbers(n);
    if Ids(gs) != Numbers(n) {
      var x :| x in Numbers(n) && x !in Ids(gs);
      assert PagesOf(gs, n)[x - 1].None?;
    }
  }

  /** The pages of a message in the order of their ids. */
  ghost predicate IsMessage(gs: seq<Segment>, pages: seq<string>) {
    && 0 < |pages| < MAX_SEGMENTS && |gs| == |pages|
    && OfOneMessage(gs, |pages|) && DistinctIds(gs)
    && forall k :: 0 <= k < |gs| ==> gs[k].data == pages[gs[k].id - 1]
  }

  function Concat(pages: seq<string>): string {
    if pages == [] then "" else pages[0] + Concat(pages[1..])
  }

  lemma {:induction false} JoinIsConcat(a: seq<Option<string>>, b: seq<string>)
    requires |a| == |b| && forall i :: 0 <= i < |a| ==> a[i] == Some(b[i])
    ensures Join(a) == Concat(b)
  {
    if a != [] {
      JoinIsConcat(a[1..], b[1..]);
    }
  }

  lemma PagesAreData(gs: seq<Segment>, pages: seq<string>)
    requires IsMessage(gs, pages)
    ensures Join(PagesOf(gs, |pages|)) == Concat(pages)
  {
    var n := |pages|;
    AllPagesThereIff(gs, n);
    var stored := PagesOf(gs, n);
    assert forall i :: 0 <= i < n ==> PagesOf(gs, n)[i].Some?;
    forall i | 0 <= i < n ensures stored[i] == Some(pages[i]) {
      PageIs(gs, n, i);
    }
    JoinIsConcat(stored, pages);
  }

  lemma MessageIsConcat(gs: seq<Segment>, pages: seq<string>)
    requires IsMessage(gs, pages)
    ensures Run(INIT, gs) == Some((INIT, [Concat(pages)]))
  {
    PagesAreData(gs, pages);
    assert [] + gs == gs;
    MessageMakesOneText([], gs, |pages|);
  }

  // ---------- any number of messages ----------

  function Flatten<T>(s: seq<seq<T>>): seq<T> {
    if s == [] then [] else s[0] + Flatten(s[1..])
  }

  lemma {:induction false} RunAppends(s: State, a: seq<Segment>, b: seq<Segment>)
    requires Run(s, a).Some?
    ensures Run(s, a + b) == After(Run(s, a).value.1, Run(Run(s, a).value.0, b))
    decreases |a|
  {
    if a == [] {
      assert a + b == b;
      AfterAfter([], [], Run(s, b));
    } else {
      assert (a + b)[1..] == a[1..] + b;
      var o := Receive(s, a[0]);
      RunAppends(o.next, a[1..], b);
      var t := Run(o.next, a[1..]).value;
      AfterAfter(AsList(o.text), t.1, Run(t.0, b));
    }
  }

  function Texts(pages: seq<seq<string>>): seq<string> {
    if pages == [] then [] else [Concat(pages[0])] + Texts(pages[1..])
  }

  /** Messages of fewer than ten segments, one after the other, each with every segment once and in
      any order: the texts passed on are the concatenated pages of each, in order, no access is out
      of bounds, and the static variables are back where they started. */
  lemma {:induction false} MessagesAreReassembled(messages: seq<seq<Segment>>, pages: seq<seq<string>>)
    requires |messages| == |pages| && forall i :: 0 <= i < |pages| ==> IsMessage(messages[i], pages[i])
    ensures Run(INIT, Flatten(messages)) == Some((INIT, Texts(pages)))
  {
    if messages != [] {
      MessageIsConcat(messages[0], pages[0]);
      MessagesAreReassembled(messages[1..], pages[1..]);
      RunAppends(INIT, messages[0], Flatten(messages[1..]));
    }
  }

  // ---------- the buffers ----------

  lemma {:induction false} JoinOfUpdate(pages: seq<Option<string>>, k: nat, data: string)
    requires k < |pages|
    ensures |Join(pages[k := Some(data)])| ==
      |Join(pages)| + |data| - (if pages[k].Some? then |pages[k].value| else 0)
  {
    if k > 0 {
      assert pages[k := Some(data)][1..] == pages[1..][k - 1 := Some(data)];
      JoinOfUpdate(pages[1..], k - 1, data);
    } else {
      assert pages[k := Some(data)][1..] == pages[1..];
    }
  }

  lemma {:induction false} JoinOfBlank(n: nat)
    ensures Join(Blank(n)) == ""
  {
    if n > 0 {
      assert Blank(n)[1..] == Blank(n - 1);
      JoinOfBlank(n - 1);
    }
  }

  /** dataLen is the sum of the stored lengths as long as no id comes twice, and never less, so the
      text always fits the buffer of dataLen + 1 characters. */
  lemma {:induction false} TextFitsBuffer(gs: seq<Segment>, n: nat)
    requires OfOneMessage(gs, n)
    ensures |Join(PagesOf(gs, n))| <= Total(gs)
    ensures DistinctIds(gs) ==> |Join(PagesOf(gs, n))| == Total(gs)
  {
    if gs == [] {
      JoinOfBlank(n);
    } else {
      var front, g := gs[..|gs| - 1], gs[|gs| - 1];
      TextFitsBuffer(front, n);
      PageIs(front, n, g.id - 1);
      JoinOfUpdate(PagesOf(front, n), g.id - 1, g.data);
    }
  }

  // ---------- the code ----------

  /** The static variables of the handler. */
  class Reassembler {
    var count: nat
    var dataLen: nat
    var pdus: array?<Option<string>>

    function View(): State
      reads this, pdus
    {
      State(count, dataLen, if pdus == null then None else Some(pdus[..]))
    }

    constructor ()
      ensures View() == INIT
    {
      count, dataLen, pdus := 0, 0, null;
    }

    /** The loop that puts the pages together. */
    method Assemble() returns (msg: string)
      requires pdus != null && count <= pdus.Length
      ensures msg == Join(pdus[..count])
    {
      msg := "";
      for i := 0 to count
        invariant msg + Join(pdus[i..count]) == Join(pdus[..count])
      {
        assert pdus[i..count][1..] == pdus[i + 1..count];
        ghost var page := if pdus[i].Some? then pdus[i].value else "";
        assert msg + (page + Join(pdus[i + 1..count])) == msg + page + Join(pdus[i + 1..count]);
        if pdus[i].Some? {
          msg := msg + pdus[i].value;
        }
      }
    }

    method ReceiveSegment(g: Segment) returns (text: Option<string>)
      requires !Receive(View(), g).Fault?
      modifies this, pdus
      ensures Done(View(), text) == Receive(old(View()), g)
    {
      ghost var s := View();
      text := None;
      if g.total < MAX_SEGMENTS && count == 0 {
        if g.total < 0 {
          pdus := null;
          return;
        }
        pdus := new Option<string>[g.total](_ => None);
        assert pdus[..] == Blank(g.total);
      }
      assert View() == Allocated(s, g);
      if g.id <= g.total {
        pdus[g.id - 1] := Some(g.data);
        count := count + 1;
        dataLen := dataLen + |g.data|;
        assert View() == Stored(Allocated(s, g), g);
      }
      if count == g.total {
        var msg := Assemble();
        text := Some(msg);
        count, dataLen, pdus := 0, 0, null;
      }
    }
  }
}
