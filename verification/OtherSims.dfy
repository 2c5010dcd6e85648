/** What the requests of other SIMs do to the users of a context (sprd-ril/ril_data.c), whose number and
    use count all SIMs share. */
module OtherSims {
  import opened DataSetup
  import opened DataUsers
  import opened PdpTable

  // ---------- a count under uses, deactivations and give-backs ----------

  /** What one request does to the count of a context: it may give the context back, and adds `change`. */
  datatype Touch = Touch(givenBack: bool, change: int)

  function Touched(e: Effect, i: int): Touch {
    Touch(i in e.tables.puts,
          if i == e.counted then 1 else if i == e.left && i !in e.tables.puts then -1 else 0)
  }

  /** A count is never below 0. */
  function AfterTouch(n: int, t: Touch): int {
    var m := (if t.givenBack then 0 else n) + t.change;
    if m < 0 then 0 else m
  }

  function AfterTouches(n: int, ts: seq<Touch>): int
    decreases ts
  {
    if ts == [] then n else AfterTouches(AfterTouch(n, ts[0]), ts[1..])
  }

  /** The uses less the deactivations. */
  function Net(ts: seq<Touch>): int {
    if ts == [] then 0 else ts[0].change + Net(ts[1..])
  }

  /** What follows the last give-back, with that. */
  function SinceGivenBack(ts: seq<Touch>): (r: seq<Touch>)
    ensures |r| <= |ts| && r == ts[|ts| - |r|..]
    ensures forall k :: 0 < k < |r| ==> !r[k].givenBack
    ensures (r != [] && r[0].givenBack) || (r == ts && forall k :: 0 <= k < |ts| ==> !ts[k].givenBack)
  {
    if ts == [] then []
    else
      var r := SinceGivenBack(ts[1..]);
      if r != [] && r[0].givenBack then r else ts
  }

  function StartOf(n: int, ts: seq<Touch>): int {
    var r := SinceGivenBack(ts);
    if r != [] && r[0].givenBack then 0 else n
  }

  lemma GivenBackLater(n: int, ts: seq<Touch>)
    requires ts != []
    ensures var r := SinceGivenBack(ts[1..]);
      (StartOf(n, ts), SinceGivenBack(ts)) ==
        if r != [] && r[0].givenBack then (0, r)
        else (if ts[0].givenBack then 0 else n, ts)
  {
  }

  lemma {:induction false} OnlyTheLastGiveBackCounts(n: int, ts: seq<Touch>)
    ensures AfterTouches(n, ts) == AfterTouches(StartOf(n, ts), SinceGivenBack(ts))
    decreases ts
  {
    if ts != [] {
      OnlyTheLastGiveBackCounts(AfterTouch(n, ts[0]), ts[1..]);
      GivenBackLater(n, ts);
    }
  }

  /** The count that is left is the highest of: the start with all that was added and taken since, and
      what was added and taken since any later point, where the count may have been 0. */
  predicate IsHighest(c: int, start: int, ts: seq<Touch>) {
    && start + Net(ts) <= c && (forall k :: 0 <= k <= |ts| ==> Net(ts[k..]) <= c)
    && (start + Net(ts) == c || exists k :: 0 <= k <= |ts| && Net(ts[k..]) == c)
  }

  lemma HighestOfRest(ts: seq<Touch>, k: nat)
    requires ts != [] && k < |ts|
    ensures ts[k + 1..] == ts[1..][k..]
  {
  }

  lemma OneMoreTouch(c: int, start: int, ts: seq<Touch>)
    requires ts != [] && start >= 0 && !(ts[0].givenBack && start != 0)
    requires IsHighest(c, AfterTouch(start, ts[0]), ts[1..])
    ensures IsHighest(c, start, ts)
  {
    assert ts[0..] == ts;
    forall k | 0 <= k <= |ts| ensures Net(ts[k..]) <= c {
      if k > 0 {
        HighestOfRest(ts, k - 1);
      }
    }
    if k :| 0 <= k <= |ts[1..]| && Net(ts[1..][k..]) == c {
      HighestOfRest(ts, k);
      assert Net(ts[k + 1..]) == c;
    } else if start + ts[0].change < 0 {
      HighestOfRest(ts, 0);
      assert Net(ts[1..]) == c;
    }
  }

  lemma {:induction false} TouchesReachHighest(start: int, ts: seq<Touch>)
    requires start >= 0 && (ts != [] && ts[0].givenBack ==> start == 0)
    requires forall k :: 0 < k < |ts| ==> !ts[k].givenBack
    ensures IsHighest(AfterTouches(start, ts), start, ts)
    decreases ts
  {
    if ts != [] {
      TouchesReachHighest(AfterTouch(start, ts[0]), ts[1..]);
      OneMoreTouch(AfterTouches(start, ts), start, ts);
    } else {
      assert ts[0..] == [];
    }
  }

  /** n users of a context, and what others do to its number: nothing since the last give-back, or since
      the beginning, brings the count above n, and something brings it there; a single user is content
      with less. */
  predicate ComesBackTo(n: nat, ts: seq<Touch>) {
    var (start, since) := (StartOf(n, ts), SinceGivenBack(ts));
    && start + Net(since) <= n && (forall k :: 0 <= k <= |since| ==> Net(since[k..]) <= n)
    && (n == 1 || start + Net(since) == n || exists k :: 0 <= k <= |since| && Net(since[k..]) == n)
  }

  lemma ComesBackIff(n: nat, ts: seq<Touch>)
    requires n >= 1
    ensures AfterTouches(n, ts) >= 0
    ensures ComesBackTo(n, ts) <==> AfterTouches(n, ts) == n || (n == 1 && AfterTouches(n, ts) == 0)
  {
    var (start, since) := (StartOf(n, ts), SinceGivenBack(ts));
    OnlyTheLastGiveBackCounts(n, ts);
    TouchesReachHighest(start, since);
    assert Net(since[|since|..]) == 0;
  }

  lemma {:induction false} NetOfParts(ts: seq<Touch>, k: nat)
    requires k <= |ts|
    ensures Net(ts) == Net(ts[..k]) + Net(ts[k..])
    decreases ts
  {
    if k == 0 {
      assert ts[0..] == ts;
    } else {
      NetOfParts(ts[1..], k - 1);
      assert ts[..k][1..] == ts[1..][..k - 1] && ts[k..] == ts[1..][k - 1..];
    }
  }

  /** If nothing is given back, and the others never take more than the n uses there are: iff they add as
      many uses as they take (or take the only one). */
  lemma CancelOutIff(n: nat, ts: seq<Touch>)
    requires n >= 1 && forall k :: 0 <= k < |ts| ==> !ts[k].givenBack
    requires forall k :: 0 <= k <= |ts| ==> n + Net(ts[..k]) >= 0
    ensures ComesBackTo(n, ts) <==> Net(ts) == 0 || (n == 1 && Net(ts) == -1)
  {
    assert SinceGivenBack(ts) == ts;
    forall k | 0 <= k <= |ts| ensures Net(ts[k..]) <= n + Net(ts) {
      NetOfParts(ts, k);
      assert n + Net(ts[..k]) >= 0;
    }
    assert ts[..|ts|] == ts;
  }

  // ---------- runs of other SIMs ----------

  /** Requests of SIMs other than a. */
  predicate OnlyOthers(s: Service, ops: seq<Op>, a: nat) {
    AllEnabled(s, ops) && a < |s.rows| && forall k :: 0 <= k < |ops| ==> !ops[k].Reset? && ops[k].sim != a
  }

  /** What each request of the run does to context i. */
  function Touches(s: Service, ops: seq<Op>, i: int): (r: seq<Touch>)
    requires AllEnabled(s, ops) && forall k :: 0 <= k < |ops| ==> !ops[k].Reset?
    ensures |r| == |ops|
    decreases ops
  {
    if ops == [] then []
    else
      StepKeepsValid(s, ops[0]);
      [Touched(EffectOf(s, ops[0]), i)] + Touches(Step(s, ops[0]), ops[1..], i)
  }

  lemma CountIsTouched(s: Service, op: Op, i: int)
    requires Enabled(s, op) && !op.Reset? && IsIndex(i)
    ensures Step(s, op).channels[i].count == AfterTouch(s.channels[i].count, Touched(EffectOf(s, op), i))
  {
    RequestIsLawful(s, op);
    CountAfter(s, op, i);
  }

  lemma OthersStep(s: Service, ops: seq<Op>, a: nat, i: int) returns (s': Service)
    requires OnlyOthers(s, ops, a) && IsIndex(i) && ops != []
    ensures s' == Step(s, ops[0]) && OnlyOthers(s', ops[1..], a) && Run(s, ops) == Run(s', ops[1..])
    ensures s'.rows[a] == s.rows[a] && s'.users[a] == s.users[a]
    ensures Touches(s, ops, i) == [Touched(EffectOf(s, ops[0]), i)] + Touches(s', ops[1..], i)
  {
    StepKeepsValid(s, ops[0]);
    s' := Step(s, ops[0]);
  }

  lemma TouchesOfRest(t: Touch, ts: seq<Touch>, n: int)
    ensures AfterTouches(n, [t] + ts) == AfterTouches(AfterTouch(n, t), ts)
  {
    assert ([t] + ts)[1..] == ts;
  }

  /** Requests of other SIMs leave SIM a alone, but for the counts. */
  lemma {:induction false} OthersRun(s: Service, ops: seq<Op>, a: nat, i: int)
    requires OnlyOthers(s, ops, a) && IsIndex(i)
    ensures Run(s, ops).rows[a] == s.rows[a] && Run(s, ops).users[a] == s.users[a]
    ensures Run(s, ops).channels[i].count == AfterTouches(s.channels[i].count, Touches(s, ops, i))
    decreases ops
  {
    if ops != [] {
      var s' := OthersStep(s, ops, a, i);
      CountIsTouched(s, ops[0], i);
      TouchesOfRest(Touched(EffectOf(s, ops[0]), i), Touches(s', ops[1..], i), s.channels[i].count);
      OthersRun(s', ops[1..], a, i);
    }
  }

  /** n users of SIM a and any run of requests by other SIMs: the users keep their bearer, and can release
      it, iff that is so. */
  lemma OtherSimsIff(s: Service, ops: seq<Op>, a: nat, i: int)
    requires OnlyOthers(s, ops, a) && IsBusy(s.rows[a], i)
    requires s.users[a][i] == s.channels[i].count >= 1
    ensures ReleasedByNth(TablesOf(Run(s, ops), a), i, s.users[a][i]) <==>
      ComesBackTo(s.users[a][i], Touches(s, ops, i))
  {
    var (n, ts) := (s.users[a][i], Touches(s, ops, i));
    OthersRun(s, ops, a, i);
    NthReleasesIff(TablesOf(Run(s, ops), a), i, n);
    ComesBackIff(n, ts);
  }

  /** For one request: two users or more are safe iff it neither gives the context back nor uses nor
      deactivates it; a single one is safe iff it does not use the context, or gives it back first. */
  lemma OtherSimIff(s: Service, op: Op, a: nat, i: int)
    requires Enabled(s, op) && !op.Reset? && op.sim != a < |s.rows| && IsBusy(s.rows[a], i)
    requires s.users[a][i] == s.channels[i].count >= 1
    ensures |Step(s, op).rows| == |s.rows|
    ensures var (e, n) := (EffectOf(s, op), s.users[a][i]);
      ReleasedByNth(TablesOf(Step(s, op), a), i, n) <==>
        if n >= 2 then i !in e.tables.puts && i != e.counted && i != e.left
        else i != e.counted || i in e.tables.puts
  {
    StepKeepsValid(s, op);
    RequestIsLawful(s, op);
    CountAfter(s, op, i);
    NthReleasesIff(TablesOf(Step(s, op), a), i, s.users[a][i]);
  }
}
