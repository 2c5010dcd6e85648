/** Lost segments of warning messages (sprd-ril/ril_sms.c): what segments do to the static variables when
    those are not as a message expects them. */
module WarningLoss {
  import opened Options
  import opened WarningSegments

  // ---------- one segment ----------

  /** Whatever part of a message of n segments has come, the next segment is stored behind the array iff
      its id is not beyond its own total, but is not positive or beyond n, whatever its total is; when
      nothing has come, its own total has to be below ten. */
  lemma SegmentFaultsIff(gs: seq<Segment>, n: nat, g: Segment)
    requires n < MAX_SEGMENTS && OfOneMessage(gs, n) && (gs == [] || |gs| < n)
    ensures Receive(Middle(gs, n), g).Fault? <==>
      g.id <= g.total &&
      if gs == [] then g.total >= 0 && (g.id < 1 || g.total >= MAX_SEGMENTS) else g.id < 1 || g.id > n
  {
  }

  /** Two messages of fewer than ten segments each, and an access behind the array of the first. */
  lemma LostThenLonger(a: string, b: string)
    ensures Run(INIT, [Segment(1, 2, a), Segment(3, 3, b)]) == None
  {
    var (first, second) := (Segment(1, 2, a), Segment(3, 3, b));
    assert Middle([first], 2).pdus == Some(PagesOf([first], 2));
    ReceiveInMiddle([], first, 2);
    assert [] + [first] == [first] && [first, second][1..] == [second];
    SegmentFaultsIff([first], 2, second);
  }

  // ---------- segments on top of others ----------

  /** Segments have been stored that have not been passed on. */
  predicate LeftOver(s: State) {
    s.count >= 1 && s.pdus.Some?
  }

  function Size(s: State): nat
    requires LeftOver(s)
  {
    |s.pdus.value|
  }

  /** The ids of all segments of a message of m segments, in the order of their arrival. */
  predicate IsWhole(gs: seq<Segment>, m: nat) {
    0 < m < MAX_SEGMENTS && |gs| == m && OfOneMessage(gs, m) && DistinctIds(gs)
  }

  predicate AllFit(gs: seq<Segment>, n: nat) {
    forall i :: 0 <= i < |gs| ==> 1 <= gs[i].id <= n
  }

  /** Segments that are only stored. */
  function StoredAll(s: State, gs: seq<Segment>): (r: State)
    requires LeftOver(s) && AllFit(gs, Size(s))
    ensures LeftOver(r) && r.count == s.count + |gs| && Size(r) == Size(s)
    decreases |gs|
  {
    if gs == [] then s
    else
      var g := gs[0];
      assert 1 <= g.id <= Size(s);
      StoredAll(Stored(s, g), gs[1..])
  }

  lemma {:induction false} StoringGoesOn(s: State, gs: seq<Segment>, m: nat)
    requires LeftOver(s) && OfOneMessage(gs, m) && m <= Size(s) && (s.count >= m || s.count + |gs| < m)
    ensures Run(s, gs) == Some((StoredAll(s, gs), []))
    decreases |gs|
  {
    if gs != [] {
      assert Receive(s, gs[0]) == Done(Stored(s, gs[0]), None);
      StoringGoesOn(Stored(s, gs[0]), gs[1..], m);
      AfterAfter([], [], Run(Stored(s, gs[0]), gs[1..]));
    }
  }

  /** The first segments of a message, from the initial state. */
  lemma {:induction false} PartIsKept(before: seq<Segment>, gs: seq<Segment>, m: nat)
    requires m < MAX_SEGMENTS && OfOneMessage(before + gs, m) && |before| + |gs| < m
    ensures OfOneMessage(before, m)
    ensures Run(Middle(before, m), gs) == Some((Middle(before + gs, m), []))
    decreases |gs|
  {
    assert forall i :: 0 <= i < |before| ==> (before + gs)[i] == before[i];
    if gs == [] {
      assert before + gs == before;
    } else {
      assert before + gs == (before + [gs[0]]) + gs[1..];
      assert forall i :: 0 <= i <= |before| ==> (before + [gs[0]])[i] == (before + gs)[i];
      ReceiveInMiddle(before, gs[0], m);
      PartIsKept(before + [gs[0]], gs[1..], m);
      AfterAfter([], [], Run(Middle(before + [gs[0]], m), gs[1..]));
    }
  }

  /** The text that is passed on when c segments were left over: it is made when the first m - c segments
      have come. */
  function EarlyText(s: State, gs: seq<Segment>, m: nat): string
    requires LeftOver(s) && OfOneMessage(gs, m) && s.count < m == |gs| && m <= Size(s)
  {
    Join(StoredAll(s, gs[..m - s.count]).pdus.value[..m])
  }

  lemma StoredSnoc(s: State, gs: seq<Segment>, g: Segment)
    requires LeftOver(s) && AllFit(gs, Size(s)) && 1 <= g.id <= Size(s)
    ensures AllFit(gs + [g], Size(s)) && StoredAll(s, gs + [g]) == Stored(StoredAll(s, gs), g)
    decreases |gs|
  {
    if gs == [] {
      assert gs + [g] == [g] && [g][1..] == [];
    } else {
      assert (gs + [g])[1..] == gs[1..] + [g];
      StoredSnoc(Stored(s, gs[0]), gs[1..], g);
    }
  }

  lemma PartFromStart(gs: seq<Segment>, m: nat)
    requires m < MAX_SEGMENTS && OfOneMessage(gs, m) && |gs| < m
    ensures Run(INIT, gs) == Some((Middle(gs, m), []))
  {
    assert [] + gs == gs;
    PartIsKept([], gs, m);
  }

  lemma RunOfCons(s: State, g: Segment, rest: seq<Segment>)
    ensures Run(s, [g] + rest) ==
      var o := Receive(s, g); if o.Fault? then None else After(AsList(o.text), Run(o.next, rest))
  {
    assert ([g] + rest)[1..] == rest;
  }

  /** The segment with which the count reaches the total, and what follows it. */
  lemma TextIsMade(u: State, g: Segment, rest: seq<Segment>, m: nat)
    requires LeftOver(u) && u.count + 1 == m <= Size(u) && m < MAX_SEGMENTS && |rest| < m
    requires g.total == m && 1 <= g.id <= m && OfOneMessage(rest, m)
    ensures Run(u, [g] + rest) == Some((Middle(rest, m), [Join(Stored(u, g).pdus.value[..m])]))
  {
    var text := Join(Stored(u, g).pdus.value[..m]);
    assert Receive(u, g) == Done(INIT, Some(text));
    RunOfCons(u, g, rest);
    PartFromStart(rest, m);
    assert [text] + [] == [text];
  }

  lemma MadeOf(s: State, front: seq<Segment>, g: Segment, rest: seq<Segment>, m: nat)
    requires LeftOver(s) && m <= Size(s) && m < MAX_SEGMENTS && s.count + |front| + 1 == m && |rest| < m
    requires OfOneMessage(front, m) && g.total == m && 1 <= g.id <= m && OfOneMessage(rest, m)
    ensures Run(s, front + ([g] + rest))
            == Some((Middle(rest, m), [Join(Stored(StoredAll(s, front), g).pdus.value[..m])]))
  {
    StoringGoesOn(s, front, m);
    TextIsMade(StoredAll(s, front), g, rest, m);
    RunAppends(s, front, [g] + rest);
    AfterAfter([], [], Run(StoredAll(s, front), [g] + rest));
  }

  lemma EarlyTextIs(s: State, gs: seq<Segment>, m: nat, front: seq<Segment>, g: Segment)
    requires LeftOver(s) && OfOneMessage(gs, m) && s.count < m == |gs| && m <= Size(s)
    requires gs[..m - s.count] == front + [g] && OfOneMessage(front, m) && 1 <= g.id <= m
    ensures EarlyText(s, gs, m) == Join(Stored(StoredAll(s, front), g).pdus.value[..m])
  {
    StoredSnoc(s, front, g);
  }

  lemma PartsOfOne(gs: seq<Segment>, m: nat, k: nat)
    requires OfOneMessage(gs, m) && k < |gs|
    ensures OfOneMessage(gs[..k], m) && OfOneMessage(gs[k + 1..], m) && gs[k].total == m && 1 <= gs[k].id <= m
  {
  }

  /** A whole message on top of fewer left-over segments: a text too early, and as many left over again. */
  lemma TextTooEarly(s: State, gs: seq<Segment>, m: nat)
    requires LeftOver(s) && IsWhole(gs, m) && s.count < m <= Size(s)
    ensures OfOneMessage(gs[m - s.count..], m)
    ensures Run(s, gs) == Some((Middle(gs[m - s.count..], m), [EarlyText(s, gs, m)]))
  {
    var k := m - s.count - 1;
    SplitAt(gs, k);
    PartsOfOne(gs, m, k);
    EarlyTextIs(s, gs, m, gs[..k], gs[k]);
    MadeOf(s, gs[..k], gs[k], gs[k + 1..], m);
  }

  lemma SplitAt(gs: seq<Segment>, k: nat)
    requires k < |gs|
    ensures gs == gs[..k] + ([gs[k]] + gs[k + 1..]) && gs[..k + 1] == gs[..k] + [gs[k]]
  {
  }

  /** Too large for the array: a segment is beyond it, or the pages put together are. */
  lemma {:induction false} TooLarge(s: State, gs: seq<Segment>, m: nat)
    requires LeftOver(s) && OfOneMessage(gs, m) && Size(s) < m
    requires (s.count < m <= s.count + |gs|) || (s.count >= m && exists k :: 0 <= k < |gs| && gs[k].id > Size(s))
    ensures Run(s, gs) == None
    decreases |gs|
  {
    var g := gs[0];
    if g.id <= Size(s) && s.count + 1 != m {
      var u := Stored(s, g);
      assert Receive(s, g) == Done(u, None);
      if s.count >= m {
        var k :| 0 <= k < |gs| && gs[k].id > Size(s);
        assert gs[1..][k - 1].id > Size(u);
      }
      TooLarge(u, gs[1..], m);
    }
  }

  lemma WholeHasItsLast(gs: seq<Segment>, m: nat)
    requires IsWhole(gs, m)
    ensures exists k :: 0 <= k < |gs| && gs[k].id == m
  {
    AllIdsIff(gs, m);
    assert m in Numbers(m) && m in Ids(gs);
  }

  /** A whole message of m segments, in any order, on top of left-over segments: it runs out of the array
      iff that was made for fewer than m; otherwise there are left-over segments again. */
  lemma OutOfStep(s: State, gs: seq<Segment>, m: nat)
    requires LeftOver(s) && IsWhole(gs, m)
    ensures Run(s, gs).None? <==> m > Size(s)
    ensures Run(s, gs).Some? ==>
      var (t, texts) := Run(s, gs).value;
      && LeftOver(t) && t.count == (if s.count < m then s.count else s.count + m)
      && Size(t) == (if s.count < m then m else Size(s))
      && texts == if s.count < m then [EarlyText(s, gs, m)] else []
  {
    if m > Size(s) {
      WholeHasItsLast(gs, m);
      var k :| 0 <= k < |gs| && gs[k].id == m;
      assert gs[k].id > Size(s);
      TooLarge(s, gs, m);
    } else if s.count < m {
      TextTooEarly(s, gs, m);
    } else {
      StoringGoesOn(s, gs, m);
    }
  }

  /** So one lost segment puts all later messages out of step, however many there are. */
  lemma {:induction false} NeverInStepAgain(s: State, messages: seq<seq<Segment>>)
    requires LeftOver(s) && forall i :: 0 <= i < |messages| ==> IsWhole(messages[i], |messages[i]|)
    ensures Run(s, Flatten(messages)).Some? ==> LeftOver(Run(s, Flatten(messages)).value.0)
    decreases |messages|
  {
    if messages != [] {
      var (gs, rest) := (messages[0], Flatten(messages[1..]));
      OutOfStep(s, gs, |gs|);
      if Run(s, gs).Some? {
        RunAppends(s, gs, rest);
        NeverInStepAgain(Run(s, gs).value.0, messages[1..]);
      } else {
        FaultStays(s, gs, rest);
      }
    }
  }

  lemma {:induction false} FaultStays(s: State, a: seq<Segment>, b: seq<Segment>)
    requires Run(s, a).None?
    ensures Run(s, a + b).None?
    decreases |a|
  {
    var o := Receive(s, a[0]);
    assert (a + b)[1..] == a[1..] + b;
    if !o.Fault? {
      FaultStays(o.next, a[1..], b);
    }
  }

  // ---------- when a message comes out right ----------

  /** The order in which the m segments of a message arrive. */
  predicate IsOrder(ids: seq<int>) {
    && 0 < |ids| < MAX_SEGMENTS
    && (forall i :: 0 <= i < |ids| ==> 1 <= ids[i] <= |ids|)
    && forall i, j :: 0 <= i < j < |ids| ==> ids[i] != ids[j]
  }

  function Arriving(ids: seq<int>, pages: seq<string>): (gs: seq<Segment>)
    requires IsOrder(ids) && |pages| == |ids|
    ensures IsWhole(gs, |ids|) && IsMessage(gs, pages)
    ensures forall i :: 0 <= i < |ids| ==> gs[i] == Segment(ids[i], |ids|, pages[ids[i] - 1])
  {
    seq(|ids|, i requires 0 <= i < |ids| => Segment(ids[i], |ids|, pages[ids[i] - 1]))
  }

  predicate ComesOutRight(s: State, ids: seq<int>, pages: seq<string>)
    requires IsOrder(ids) && |pages| == |ids|
  {
    var r := Run(s, Arriving(ids, pages));
    r.Some? && r.value.1 == [Concat(pages)]
  }

  lemma {:induction false} ConcatOfEmpty(n: nat)
    ensures Concat(seq(n, _ => "")) == ""
  {
    if n > 0 {
      assert seq(n, _ => "")[1..] == seq(n - 1, _ => "");
      ConcatOfEmpty(n - 1);
    }
  }

  lemma {:induction false} ConcatOfOne(n: nat, k: nat, x: string)
    requires k < n
    ensures Concat(seq(n, _ => "")[k := x]) == x
  {
    var pages := seq(n, _ => "")[k := x];
    if k == 0 {
      assert pages[1..] == seq(n - 1, _ => "");
      ConcatOfEmpty(n - 1);
      assert x + "" == x;
    } else {
      assert pages[1..] == seq(n - 1, _ => "")[k - 1 := x];
      ConcatOfOne(n - 1, k - 1, x);
    }
  }

  /** The pages of late segments are not in the text. */
  lemma SameEarlyText(s: State, ids: seq<int>, none: seq<string>, x: string)
    requires LeftOver(s) && IsOrder(ids) && |none| == |ids| && s.count < |ids| <= Size(s)
    ensures var one := none[ids[|ids| - 1] - 1 := x];
      EarlyText(s, Arriving(ids, none), |ids|) == EarlyText(s, Arriving(ids, one), |ids|)
  {
    var m := |ids|;
    var (a, b) := (Arriving(ids, none), Arriving(ids, none[ids[m - 1] - 1 := x]));
    forall i | 0 <= i < m - 1 ensures a[i] == b[i] {
      assert ids[i] != ids[m - 1];
    }
    assert a[..m - s.count] == b[..m - s.count];
  }

  lemma TextsAre(s: State, ids: seq<int>, pages: seq<string>)
    requires LeftOver(s) && IsOrder(ids) && |pages| == |ids| && ComesOutRight(s, ids, pages)
    ensures s.count < |ids| <= Size(s) && EarlyText(s, Arriving(ids, pages), |ids|) == Concat(pages)
  {
    OutOfStep(s, Arriving(ids, pages), |ids|);
  }

  lemma NotBoth(s: State, ids: seq<int>, none: seq<string>, late: nat)
    requires LeftOver(s) && IsOrder(ids) && none == seq(|ids|, _ => "") && late == ids[|ids| - 1] - 1
    ensures !ComesOutRight(s, ids, none) || !ComesOutRight(s, ids, none[late := "x"])
  {
    if ComesOutRight(s, ids, none) && ComesOutRight(s, ids, none[late := "x"]) {
      TextsAre(s, ids, none);
      TextsAre(s, ids, none[late := "x"]);
      SameEarlyText(s, ids, none, "x");
      ConcatOfEmpty(|ids|);
      ConcatOfOne(|ids|, late, "x");
      assert false;
    }
  }

  /** Pages that do not come out right, all empty but perhaps one. */
  lemma LateIsMissing(s: State, ids: seq<int>) returns (pages: seq<string>)
    requires LeftOver(s) && IsOrder(ids)
    ensures |pages| == |ids| && !ComesOutRight(s, ids, pages)
  {
    pages := seq(|ids|, _ => "");
    NotBoth(s, ids, pages, ids[|ids| - 1] - 1);
    if ComesOutRight(s, ids, pages) {
      pages := pages[ids[|ids| - 1] - 1 := "x"];
    }
  }

  predicate EndsAtStart(r: Option<(State, seq<string>)>) {
    r.Some? && r.value.0 == INIT
  }

  lemma WholeEndsAtStart(gs: seq<Segment>)
    requires IsWhole(gs, |gs|)
    ensures EndsAtStart(Run(INIT, gs))
  {
    assert [] + gs == gs;
    MessageMakesOneText([], gs, |gs|);
  }

  lemma OneMoreMessage(gs: seq<Segment>, rest: seq<Segment>)
    requires EndsAtStart(Run(INIT, gs)) && EndsAtStart(Run(INIT, rest))
    ensures EndsAtStart(Run(INIT, gs + rest))
  {
    RunAppends(INIT, gs, rest);
  }

  /** Whole messages only leave the static variables as they were. */
  lemma {:induction false} WholeMessagesLeaveNothing(messages: seq<seq<Segment>>)
    requires forall i :: 0 <= i < |messages| ==> IsWhole(messages[i], |messages[i]|)
    ensures EndsAtStart(Run(INIT, Flatten(messages)))
    decreases |messages|
  {
    if messages != [] {
      WholeEndsAtStart(messages[0]);
      WholeMessagesLeaveNothing(messages[1..]);
      OneMoreMessage(messages[0], Flatten(messages[1..]));
    }
  }

  predicate ComeOutRight(r: Option<(State, seq<string>)>, ids: seq<int>, pages: seq<string>)
    requires IsOrder(ids) && |pages| == |ids|
  {
    r.Some? && ComesOutRight(r.value.0, ids, pages)
  }

  /** After part of a message and any number of whole ones, a message comes out right, whatever it says,
      iff the part is nothing. */
  lemma ComesOutRightIff(part: seq<Segment>, n: nat, messages: seq<seq<Segment>>, ids: seq<int>)
    requires n < MAX_SEGMENTS && OfOneMessage(part, n) && (part != [] ==> |part| < n) && IsOrder(ids)
    requires forall i :: 0 <= i < |messages| ==> IsWhole(messages[i], |messages[i]|)
    ensures
      (forall pages :: |pages| == |ids| ==> ComeOutRight(Run(Middle(part, n), Flatten(messages)), ids, pages))
      <==> part == []
  {
    var r := Run(Middle(part, n), Flatten(messages));
    if part == [] {
      WholeMessagesLeaveNothing(messages);
      forall pages: seq<string> | |pages| == |ids| ensures ComeOutRight(r, ids, pages) {
        MessageIsConcat(Arriving(ids, pages), pages);
      }
    } else {
      NeverInStepAgain(Middle(part, n), messages);
      NotAllRight(r, ids);
    }
  }

  lemma NotAllRight(r: Option<(State, seq<string>)>, ids: seq<int>)
    requires IsOrder(ids) && (r.Some? ==> LeftOver(r.value.0))
    ensures exists pages :: |pages| == |ids| && !ComeOutRight(r, ids, pages)
  {
    if r.Some? {
      var pages := LateIsMissing(r.value.0, ids);
      assert !ComeOutRight(r, ids, pages);
    } else {
      var none: seq<string> := seq(|ids|, _ => "");
      assert |none| == |ids| && !ComeOutRight(r, ids, none);
    }
  }

  /** For example: the second segment of two is lost, and the next two messages are mixed. */
  lemma MessagesAreMixed()
    ensures Run(INIT, [Segment(1, 2, "a"), Segment(1, 2, "b"), Segment(2, 2, "c"), Segment(1, 2, "d")])
            == Some((INIT, ["b", "dc"]))
  {
    var (a, b, c, d) := (Segment(1, 2, "a"), Segment(1, 2, "b"), Segment(2, 2, "c"), Segment(1, 2, "d"));
    assert [a, b] + [c, d] == [a, b, c, d] && ["b"] + ["dc"] == ["b", "dc"];
    TwoMakeOne(a, b, Some("b"), None);
    TwoMakeOne(c, d, Some("d"), Some("c"));
    RunAppends(INIT, [a, b], [c, d]);
    assert "d" + "c" == "dc" && "b" + "" == "b";
  }

  lemma TwoMakeOne(a: Segment, b: Segment, p: Option<string>, q: Option<string>)
    requires a.total == 2 == b.total && 1 <= a.id <= 2 && 1 <= b.id <= 2
    requires Blank(2)[a.id - 1 := Some(a.data)][b.id - 1 := Some(b.data)] == [p, q]
    ensures Run(INIT, [a, b]) == Some((INIT, [(if p.Some? then p.value else "") + if q.Some? then q.value else ""]))
  {
    TwoPages(a, b);
    assert [] + [a, b] == [a, b];
    MessageMakesOneText([], [a, b], 2);
    JoinOfTwo(p, q);
  }

  lemma TwoPages(a: Segment, b: Segment)
    requires a.total == 2 == b.total && 1 <= a.id <= 2 && 1 <= b.id <= 2
    ensures OfOneMessage([a, b], 2)
    ensures PagesOf([a, b], 2) == Blank(2)[a.id - 1 := Some(a.data)][b.id - 1 := Some(b.data)]
  {
    assert OfOneMessage([a, b], 2) && OfOneMessage([a], 2);
    assert [a, b][..1] == [a] && [a][..0] == [];
    assert PagesOf([a], 2) == Blank(2)[a.id - 1 := Some(a.data)];
  }

  lemma JoinOfTwo(p: Option<string>, q: Option<string>)
    ensures Join([p, q]) == (if p.Some? then p.value else "") + if q.Some? then q.value else ""
  {
    var last := if q.Some? then q.value else "";
    assert [p, q][1..] == [q] && [q][1..] == [];
    assert Join([q]) == last + Join([]) == last;
  }
}
