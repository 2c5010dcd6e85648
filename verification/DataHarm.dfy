/** When a request keeps the use counts right (sprd-ril/ril_data.c), told from its arguments, the users
    before it and the modem's answers; and when a run of requests does. */
module DataHarm {
  import opened DataAnswers
  import opened DataSetup
  import opened DataUsers
  import opened PdpTable

  // ---------- the condition ----------

  /** None of these contexts has a user on another SIM. */
  predicate OnlyOwn(s: Service, sim: nat, contexts: set<int>)
    requires sim < |s.users|
  {
    forall i :: 0 <= i < MAX_PDP && i in contexts ==> Others(s, sim, i) == 0
  }

  /** The setup goes to `done` and cannot tell from the list how its context is: it is counted, and the
      framework is told of a failure. */
  predicate IsUntold(e: End, listing: Listing) {
    e.exit != Refused && (listing.Unreadable? || listing.Unlisted?)
  }

  /** It goes to `done` with its context idle. */
  predicate IsIdleAtDone(e: End, pdpType: PdpType, m: Modem) {
    e.exit != Refused && e.last < MAX_PASSES && EndsIdle(e.at, pdpType, m.passes[e.last], e.retried)
  }

  /** A setup is harmless iff it gives back nothing that other SIMs use, is not counted without the
      framework being told, and does not succeed on an idle slot. The first two can cancel out: the
      context it is counted on has been given back before, and another SIM had one user of it. */
  predicate SetUpIsHarmless(s: Service, sim: nat, pdpType: PdpType, m: Modem)
    requires Valid(s) && sim < |s.rows|
  {
    var t := TablesOf(s, sim);
    var e := Loop(t, pdpType, m.passes, 0, 0, -1);
    && (forall i :: 0 <= i < MAX_PDP ==>
          (if i in GivenBackBy(t, pdpType, m) then Others(s, sim, i) else 0)
          == if IsUntold(e, m.listing) && i == e.index then 1 else 0)
    && !(m.listing.Active? && IsIdleAtDone(e, pdpType, m))
  }

  /** A BIP channel that shares a busy context, or may not be opened, is harmless; one that has a context
      set up is told of every use. */
  predicate OpeningIsHarmless(s: Service, sim: nat, pdpType: PdpType, allowed: bool, matching: set<int>, m: Modem)
    requires Valid(s) && sim < |s.rows|
  {
    var t := TablesOf(s, sim);
    var e := Loop(t, pdpType, m.passes, 0, 0, -1);
    !allowed || BusyAmongLast(t.row, matching, |t.row|) != -1 ||
    (&& OnlyOwn(s, sim, GivenBackBy(t, pdpType, m))
     && (!m.listing.Detached? && !m.listing.Inactive? ==> !IsIdleAtDone(e, pdpType, m)))
  }

  /** A SIM may deactivate what it uses, or what nobody uses; and when that takes the bearer down, the
      fallback partner must not be used by another SIM. */
  predicate DeactivationIsHarmless(s: Service, sim: nat, cid: int)
    requires Valid(s) && sim < |s.rows|
  {
    var (row, i) := (s.rows[sim], cid - 1);
    IsIndex(i) ==>
      && (s.users[sim][i] == 0 ==> Total(s.users, i) == 0)
      && (IsBusy(row, i) && Total(s.users, i) <= 1 ==> OnlyOwn(s, sim, PairOf(row, i)))
  }

  predicate Harmless(s: Service, op: Op)
    requires Enabled(s, op)
  {
    match op
    case SetUp(sim, pdpType, m) => SetUpIsHarmless(s, sim, pdpType, m)
    case OpenChannel(sim, pdpType, allowed, matching, m) => OpeningIsHarmless(s, sim, pdpType, allowed, matching, m)
    case Deactivate(sim, cid) => DeactivationIsHarmless(s, sim, cid)
    case CloseChannel(sim, cid) => DeactivationIsHarmless(s, sim, cid)
    case Reset => true
  }

  // ---------- that this is the condition ----------

  lemma SetUpIn(s: Service, sim: nat, pdpType: PdpType, m: Modem)
    requires Valid(s) && sim < |s.rows|
    ensures
      var (t, op) := (TablesOf(s, sim), SetUp(sim, pdpType, m));
      var (e, o) := (EffectOf(s, op), Setup(t, pdpType, m));
      && e.tables.puts == GivenBackBy(t, pdpType, m)
      && (e.gained != -1 <==> o.success) && (o.success ==> e.gained == o.index && IsIndex(o.index))
      && forall i :: 0 <= i < MAX_PDP ==>
           && Forgotten(s, op, e, i) == (if i in GivenBackBy(t, pdpType, m) then Others(s, sim, i) else 0)
           && Phantom(s, op, e, i) == if o.exit != Refused && (m.listing.Unreadable? || m.listing.Unlisted?)
                                         && i == o.index then 1 else 0
  {
    SetupKeeps(TablesOf(s, sim), pdpType, m);
    SetupGivesBack(TablesOf(s, sim), pdpType, m);
  }

  lemma SetUpBalancedIff(s: Service, sim: nat, pdpType: PdpType, m: Modem)
    requires Valid(s) && sim < |s.rows|
    ensures Balanced(s, SetUp(sim, pdpType, m)) <==> SetUpIsHarmless(s, sim, pdpType, m)
  {
    SuccessOnIdleSlotIff(TablesOf(s, sim), pdpType, m);
    SetUpIn(s, sim, pdpType, m);
  }

  /** A slot a channel is given is idle iff it is idle at `done`. */
  lemma AttachedIsBusyIff(t: Tables, pdpType: PdpType, m: Modem)
    requires Paired(t.row)
    ensures var (e, o) := (Loop(t, pdpType, m.passes, 0, 0, -1), Setup(t, pdpType, m));
      o.attached ==> (IsBusy(o.tables.row, o.index) <==> !IsIdleAtDone(e, pdpType, m))
  {
    LoopKeeps(t, pdpType, m.passes);
    if Loop(t, pdpType, m.passes, 0, 0, -1).exit != Refused {
      IdleIff(t, pdpType, m.passes);
    }
  }

  lemma SharedIsBalanced(s: Service, op: Op)
    requires Enabled(s, op) && op.OpenChannel?
    requires !op.allowed || BusyAmongLast(s.rows[op.sim], op.matching, MAX_PDP) != -1
    ensures Balanced(s, op)
  {
  }

  lemma OpenedIn(s: Service, op: Op)
    requires Enabled(s, op) && op.OpenChannel? && op.allowed
    requires BusyAmongLast(s.rows[op.sim], op.matching, MAX_PDP) == -1
    ensures
      var t := TablesOf(s, op.sim);
      var (e, o) := (EffectOf(s, op), Setup(t, op.pdpType, op.modem));
      && e.tables.puts == GivenBackBy(t, op.pdpType, op.modem) && e.tables.row == o.tables.row
      && e.gained == e.counted == (if o.attached then o.index else -1) && e.left == -1
      && (o.attached ==> o.index != -1)
  {
    SetupKeeps(TablesOf(s, op.sim), op.pdpType, op.modem);
    SetupGivesBack(TablesOf(s, op.sim), op.pdpType, op.modem);
  }

  lemma OpenedBalancedIff(s: Service, op: Op)
    requires Enabled(s, op) && op.OpenChannel? && op.allowed
    requires BusyAmongLast(s.rows[op.sim], op.matching, MAX_PDP) == -1
    ensures
      var t := TablesOf(s, op.sim);
      var o := Setup(t, op.pdpType, op.modem);
      Balanced(s, op) <==>
        && OnlyOwn(s, op.sim, GivenBackBy(t, op.pdpType, op.modem))
        && (o.attached ==> IsBusy(o.tables.row, o.index))
  {
    OpenedIn(s, op);
    var e := EffectOf(s, op);
    forall i | 0 <= i < MAX_PDP
      ensures Phantom(s, op, e, i) == 0
      ensures Forgotten(s, op, e, i) == if i in e.tables.puts then Others(s, op.sim, i) else 0
    {
    }
  }

  lemma OpeningBalancedIff(s: Service, op: Op)
    requires Enabled(s, op) && op.OpenChannel?
    ensures Balanced(s, op) <==> OpeningIsHarmless(s, op.sim, op.pdpType, op.allowed, op.matching, op.modem)
  {
    if !op.allowed || BusyAmongLast(s.rows[op.sim], op.matching, MAX_PDP) != -1 {
      SharedIsBalanced(s, op);
    } else {
      OpenedBalancedIff(s, op);
      AttachedIsBusyIff(TablesOf(s, op.sim), op.pdpType, op.modem);
    }
  }

  lemma DeactivationIn(s: Service, op: Op, i: int)
    requires Enabled(s, op) && (op.Deactivate? || op.CloseChannel?) && op.cid == i + 1 && IsIndex(i)
    ensures var e := EffectOf(s, op);
      && e.left == i && e.gained == e.counted == -1
      && e.tables.puts ==
           if IsBusy(s.rows[op.sim], i) && s.channels[i].count <= 1 then PairOf(s.rows[op.sim], i) else {}
  {
    var t := TablesOf(s, op.sim);
    DeactivationFreesIff(t, i);
    DeactivationFreesIff(t.(channels := MarkChannel(t.channels, i, Close)), i);
  }

  lemma DeactivationForgets(s: Service, op: Op, i: int, k: int)
    requires Sound(s) && Enabled(s, op) && (op.Deactivate? || op.CloseChannel?) && op.cid == i + 1
    requires IsIndex(i) && IsIndex(k)
    ensures var (e, row) := (EffectOf(s, op), s.rows[op.sim]);
      && Forgotten(s, op, e, k) ==
           (if IsBusy(row, i) && Total(s.users, i) <= 1 then if k in PairOf(row, i) then Others(s, op.sim, k) else 0
            else if k == i && s.users[op.sim][i] == 0 && Total(s.users, i) > 0 then 1 else 0)
      && Phantom(s, op, e, k) == 0
  {
    DeactivationIn(s, op, i);
    assert Drift(s, i) == 0;
    TotalOfUpdate(s.users, op.sim, s.users[op.sim], i);
  }

  lemma DeactivationBalancedIff(s: Service, op: Op)
    requires Sound(s) && Enabled(s, op) && (op.Deactivate? || op.CloseChannel?)
    ensures Balanced(s, op) <==> DeactivationIsHarmless(s, op.sim, op.cid)
  {
    var i := op.cid - 1;
    if IsIndex(i) {
      var e := EffectOf(s, op);
      DeactivationIn(s, op, i);
      forall k | 0 <= k < MAX_PDP
        ensures Phantom(s, op, e, k) == 0
        ensures Forgotten(s, op, e, k) ==
           (if IsBusy(s.rows[op.sim], i) && Total(s.users, i) <= 1 then
              if k in PairOf(s.rows[op.sim], i) then Others(s, op.sim, k) else 0
            else if k == i && s.users[op.sim][i] == 0 && Total(s.users, i) > 0 then 1 else 0)
      {
        DeactivationForgets(s, op, i, k);
      }
      assert Others(s, op.sim, i) == Total(s.users, i) - s.users[op.sim][i];
      assert Forgotten(s, op, e, i) == Phantom(s, op, e, i) ==> s.users[op.sim][i] == 0 ==> Total(s.users, i) == 0;
    }
  }

  /** One request keeps the counts right iff it is harmless. */
  lemma StepKeepsSoundIff(s: Service, op: Op)
    requires Enabled(s, op) && Sound(s)
    ensures Sound(Step(s, op)) <==> Harmless(s, op)
  {
    SoundIffBalanced(s, op);
    match op
    case SetUp(sim, pdpType, m) => SetUpBalancedIff(s, sim, pdpType, m);
    case OpenChannel(_, _, _, _, _) => OpeningBalancedIff(s, op);
    case Deactivate(_, _) => DeactivationBalancedIff(s, op);
    case CloseChannel(_, _) => DeactivationBalancedIff(s, op);
    case Reset =>
  }

  // ---------- runs ----------

  /** Every request of the run is harmless where it comes. */
  predicate AllHarmless(s: Service, ops: seq<Op>)
    requires AllEnabled(s, ops)
    decreases ops
  {
    ops == [] ||
    (Harmless(s, ops[0]) && (StepKeepsValid(s, ops[0]); AllHarmless(Step(s, ops[0]), ops[1..])))
  }

  lemma {:induction false} RunOfPrefix(s: Service, ops: seq<Op>, k: nat)
    requires AllEnabled(s, ops) && 0 < k <= |ops|
    ensures AllEnabled(Step(s, ops[0]), ops[1..])
    ensures Run(s, ops[..k]) == Run(Step(s, ops[0]), ops[1..][..k - 1])
  {
    StepKeepsValid(s, ops[0]);
    assert ops[..k][1..] == ops[1..][..k - 1];
  }

  /** Over any run of requests on any number of SIMs: the counts are the numbers of users and every used
      context is up, all along, iff every request is harmless. */
  lemma {:induction false} RunStaysSoundIff(s: Service, ops: seq<Op>)
    requires AllEnabled(s, ops) && Sound(s)
    ensures (forall k :: 0 <= k <= |ops| ==> Sound(Run(s, ops[..k]))) <==> AllHarmless(s, ops)
    decreases ops
  {
    if ops != [] {
      var s' := Step(s, ops[0]);
      StepKeepsValid(s, ops[0]);
      StepKeepsSoundIff(s, ops[0]);
      forall k | 0 < k <= |ops| ensures Run(s, ops[..k]) == Run(s', ops[1..][..k - 1]) {
        RunOfPrefix(s, ops, k);
      }
      assert Run(s, ops[..1]) == s' by { assert ops[1..][..0] == []; }
      if Harmless(s, ops[0]) {
        RunStaysSoundIff(s', ops[1..]);
        if forall k :: 0 <= k <= |ops| ==> Sound(Run(s, ops[..k])) {
          forall k | 0 <= k <= |ops[1..]| ensures Sound(Run(s', ops[1..][..k])) {
            assert Sound(Run(s, ops[..k + 1]));
          }
        }
        if AllHarmless(s, ops) {
          forall k | 0 <= k <= |ops| ensures Sound(Run(s, ops[..k])) {
            assert k > 0 ==> Sound(Run(s', ops[1..][..k - 1]));
          }
        }
      } else {
        assert !Sound(Run(s, ops[..1]));
      }
    }
  }

  // ---------- one SIM ----------

  lemma NobodyElse(s: Service, i: int)
    requires |s.users| == 1 && IsIndex(i)
    ensures Total(s.users, i) == s.users[0][i] && Others(s, 0, i) == 0
  {
    assert s.users[1..] == [];
  }

  lemma OneSimBalance(s: Service, contexts: set<int>, untold: bool, index: int)
    requires |s.users| == 1 && (untold ==> IsIndex(index))
    ensures !untold <==>
      forall i :: 0 <= i < MAX_PDP ==>
        (if i in contexts then Others(s, 0, i) else 0) == if untold && i == index then 1 else 0
  {
    forall i | 0 <= i < MAX_PDP ensures Others(s, 0, i) == 0 {
      NobodyElse(s, i);
    }
    if untold {
      assert Others(s, 0, index) == 0;
    }
  }

  /** The end of the setup is told as it is. */
  predicate IsToldRight(s: Service, pdpType: PdpType, m: Modem)
    requires |s.rows| == 1
  {
    var e := Loop(TablesOf(s, 0), pdpType, m.passes, 0, 0, -1);
    !IsUntold(e, m.listing) && !(m.listing.Active? && IsIdleAtDone(e, pdpType, m))
  }

  /** The context a BIP channel is given is up. */
  predicate IsOpenedRight(s: Service, pdpType: PdpType, allowed: bool, matching: set<int>, m: Modem)
    requires |s.rows| == 1
  {
    var e := Loop(TablesOf(s, 0), pdpType, m.passes, 0, 0, -1);
    allowed && BusyAmongLast(s.rows[0], matching, MAX_PDP) == -1 && IsIdleAtDone(e, pdpType, m) ==>
      m.listing.Detached? || m.listing.Inactive?
  }

  lemma OneSimSetUpIff(s: Service, pdpType: PdpType, m: Modem)
    requires Valid(s) && |s.rows| == 1
    ensures SetUpIsHarmless(s, 0, pdpType, m) <==> IsToldRight(s, pdpType, m)
  {
    var t := TablesOf(s, 0);
    var e := Loop(t, pdpType, m.passes, 0, 0, -1);
    LoopIndex(t, pdpType, m.passes);
    OneSimBalance(s, GivenBackBy(t, pdpType, m), IsUntold(e, m.listing), e.index);
  }

  lemma OneSimOpensIff(s: Service, pdpType: PdpType, allowed: bool, matching: set<int>, m: Modem)
    requires Valid(s) && |s.rows| == 1
    ensures OpeningIsHarmless(s, 0, pdpType, allowed, matching, m) <==>
      IsOpenedRight(s, pdpType, allowed, matching, m)
  {
    OneSimOwnsAll(s, GivenBackBy(TablesOf(s, 0), pdpType, m));
  }

  lemma OneSimOwnsAll(s: Service, contexts: set<int>)
    requires |s.users| == 1
    ensures OnlyOwn(s, 0, contexts)
  {
    forall i | 0 <= i < MAX_PDP ensures Others(s, 0, i) == 0 {
      NobodyElse(s, i);
    }
  }

  lemma OneSimDeactivates(s: Service, cid: int)
    requires Valid(s) && |s.rows| == 1
    ensures DeactivationIsHarmless(s, 0, cid)
  {
    if IsIndex(cid - 1) {
      NobodyElse(s, cid - 1);
      OneSimOwnsAll(s, PairOf(s.rows[0], cid - 1));
    }
  }

  /** With one SIM only the end of a setup matters: it must not be counted without the framework being
      told, and not succeed on an idle slot. Every other request is harmless. */
  lemma OneSimHarmlessIff(s: Service, op: Op)
    requires |s.rows| == 1 && Enabled(s, op)
    ensures match op
      case SetUp(_, pdpType, m) => Harmless(s, op) <==> IsToldRight(s, pdpType, m)
      case OpenChannel(_, pdpType, allowed, matching, m) =>
        Harmless(s, op) <==> IsOpenedRight(s, pdpType, allowed, matching, m)
      case _ => Harmless(s, op)
  {
    match op
    case SetUp(_, pdpType, m) => OneSimSetUpIff(s, pdpType, m);
    case OpenChannel(_, pdpType, allowed, matching, m) => OneSimOpensIff(s, pdpType, allowed, matching, m);
    case Deactivate(_, cid) => OneSimDeactivates(s, cid);
    case CloseChannel(_, cid) => OneSimDeactivates(s, cid);
    case Reset =>
  }
}
