/** Setting up a data call (sprd-ril/ril_data.c), as a function of the tables and of everything the
    modem and the system answer. DataCalls does the same in place. */
module DataSetup {
  import opened PdpTable

  const FALLBACK_FAILED := -2
  const FAILED := -1
  const SUCCESS := 0
  const NEED_RETRY := 1
  const NEED_FALLBACK := 2
  const NEED_ANOTHER_CID := 3
  const MAX_RETRIES := 5
  const MAX_PASSES := 12

  datatype PdpType = Ip | Ipv6 | Ipv4v6 | Ipv4PlusIpv6

  // ---------- what is answered ----------

  /** The reply to AT+CGDATA: success, a +CME ERROR with its cause, or any other failure. */
  datatype CgData = Connected | Error(cause: int) | NoAnswer

  /** errorHandlingForCGDATA */
  function Code(a: CgData): (r: int)
    ensures r == SUCCESS <==> a.Connected?
    ensures r == NEED_RETRY <==> a == Error(288)
    ensures r == NEED_FALLBACK <==> a == Error(128)
    ensures r == NEED_ANOTHER_CID <==> a == Error(253)
    ensures FAILED <= r <= NEED_ANOTHER_CID
  {
    match a
    case Connected => SUCCESS
    case NoAnswer => FAILED
    case Error(cause) =>
      if cause == 288 then NEED_RETRY else if cause == 128 then NEED_FALLBACK
      else if cause == 253 then NEED_ANOTHER_CID else FAILED
  }

  /** One activation: AT+CGDCONT= is accepted, AT+CGDATA is answered, and a fallback context ends up
      with both address types. */
  datatype Activation = Activation(contextSet: bool, data: CgData, bothTypes: bool)

  /** checkFallBack: whether an IPv4v6 context needs one, the slots getPDP passes over, the activation. */
  datatype Fallback = Fallback(wanted: bool, hidden: set<int>, activation: Activation)

  /** doIPV4_IPV6_Fallback: the activation of the first context, and of the second one. */
  datatype Split = Split(contextSet: bool, data: CgData, hidden: set<int>, second: Activation)

  /** reuseDefaultBearer: whether there may be a PDN to reuse, which PDNs match, and the one attempt. */
  datatype DefaultBearer = DefaultBearer(possible: bool, matching: set<int>, data: CgData, fallback: Fallback)

  /** All that may be answered between two passes of the label RETRY. */
  datatype Pass = Pass(reuse: DefaultBearer, hidden: set<int>, activation: Activation, split: Split, lte: bool,
                       fallback: Fallback)

  /** The data call list: AT+CGACT? or AT+CGDCONT? fails, or the context is not in the list, or it is
      but LTE was detached meanwhile, or it is inactive, or active. */
  datatype Listing = Unreadable | Unlisted | Detached | Inactive | Active

  type Passes = p: seq<Pass> | |p| == MAX_PASSES witness seq(MAX_PASSES, _ => SILENT_PASS)

  const SILENT := Activation(false, NoAnswer, false)
  const NO_FALLBACK := Fallback(false, {}, SILENT)
  const NO_SPLIT := Split(false, NoAnswer, {}, SILENT)
  const NO_REUSE := DefaultBearer(false, {}, NoAnswer, NO_FALLBACK)
  const SILENT_PASS := Pass(NO_REUSE, {}, SILENT, NO_SPLIT, false, NO_FALLBACK)

  // ---------- the tables ----------

  /** The slots of the SIM, the open-channel records of all, and the history of the contexts given
      back by putPDP. */
  datatype Tables = Tables(row: Row, channels: Channels, puts: set<int>)

  function PutAt(t: Tables, i: int): Tables {
    if !IsIndex(i) then t else Tables(Put(t.row, i), PutChannel(t.channels, i), t.puts + {i})
  }

  function Occupy(row: Row, i: int): Row
    requires IsIndex(i)
  {
    row[i := row[i].(state := Busy)]
  }

  function Take(t: Tables, i: int): Tables
    requires IsIndex(i)
  {
    t.(row := Occupy(t.row, i))
  }

  predicate IsFree(row: Row, i: int) {
    IsIndex(i) && row[i].state == Idle && row[i].cid == -1
  }

  /** The first free slot among the last n that is not passed over, or -1. */
  function FreeAmongLast(row: Row, hidden: set<int>, n: nat): (r: int)
    requires n <= MAX_PDP
    ensures r == -1 || (MAX_PDP - n <= r && IsFree(row, r) && r !in hidden)
    ensures forall i :: MAX_PDP - n <= i < (if r == -1 then MAX_PDP else r) ==> i in hidden || !IsFree(row, i)
  {
    if n == 0 then -1
    else if MAX_PDP - n !in hidden && IsFree(row, MAX_PDP - n) then MAX_PDP - n
    else FreeAmongLast(row, hidden, n - 1)
  }

  /** The slot getPDP takes, or -1. */
  function FirstFree(row: Row, hidden: set<int>): (r: int)
    ensures r == -1 || (IsFree(row, r) && r !in hidden)
    ensures forall i :: 0 <= i < (if r == -1 then MAX_PDP else r) ==> i in hidden || !IsFree(row, i)
  {
    FreeAmongLast(row, hidden, |row|)
  }

  /** activeSpeciedCidProcess on slot i, with a primary context p or none (-1). */
  function Activate(t: Tables, i: int, p: int, a: Activation): (Tables, int)
    requires IsIndex(i)
  {
    if !a.contextSet then (PutAt(t, i), FAILED)
    else if !a.data.Connected? then (PutAt(t, i), Code(a.data))
    else if p < 0 then (t.(row := UpdateCid(t.row, i + 1, 1)), SUCCESS)
    else if !a.bothTypes then (PutAt(t, i), FALLBACK_FAILED)
    else (t.(row := SetMapping(t.row, p, i)), SUCCESS)
  }

  /** checkFallBack after context p has come up. */
  function FallBack(t: Tables, pdpType: PdpType, p: int, f: Fallback): Tables {
    var i := FirstFree(t.row, f.hidden);
    if pdpType.Ip? || pdpType.Ipv6? || (pdpType.Ipv4v6? && !f.wanted) || i == -1 then t
    else Activate(Take(t, i), i, if pdpType.Ipv4v6? then p else -1, f.activation).0
  }

  /** doIPV4_IPV6_Fallback: an IPv4 and an IPv6 context instead of one with both. The IPv4 slot has
      been given back already; it is marked active and stays idle. */
  function SplitInTwo(t: Tables, i: int, s: Split): (Tables, bool)
    requires IsIndex(i)
  {
    if !s.contextSet || !s.data.Connected? then (t, false)
    else
      var marked := t.(row := UpdateCid(t.row, i + 1, 1));
      var j := FirstFree(marked.row, s.hidden);
      if j == -1 then (marked, true) else (Activate(Take(marked, j), j, -1, s.second).0, true)
  }

  /** The one attempt reuseDefaultBearer makes, on a matching PDN whose slot is idle. */
  function TryDefaultBearer(t: Tables, pdpType: PdpType, i: int, soFar: int, r: DefaultBearer): (Tables, int)
    requires IsIndex(i)
  {
    var taken := Take(t, i);
    match Code(r.data)
    case 0 => (FallBack(taken.(row := UpdateCid(taken.row, i + 1, 1)), pdpType, i, r.fallback), i + 1)
    case 3 => (t.(row := PutByIndex(UpdateCid(taken.row, i + 1, -1), i)), soFar)
    case 1 => (t.(row := PutByIndex(taken.row, i)), -2)
    case _ => (t.(row := PutByIndex(taken.row, i)), -3)
  }

  /** A matching PDN whose slot is idle is tried; one that has an open channel could be shared. */
  predicate IsTried(t: Tables, r: DefaultBearer, i: int) {
    IsIndex(i) && i in r.matching && t.row[i].state == Idle
  }

  function ShareableCid(t: Tables, r: DefaultBearer, i: int, soFar: int): int {
    if IsIndex(i) && i in r.matching && t.channels[i].state != Close then i + 1 else soFar
  }

  /** The loop of reuseDefaultBearer over the last n PDNs: a cid to use, -1 for none, -2 to retry, -3
      to give up. */
  function ReuseAmongLast(t: Tables, pdpType: PdpType, r: DefaultBearer, n: nat, soFar: int): (Tables, int)
    requires n <= MAX_PDP
    decreases n
  {
    if n == 0 then (t, soFar)
    else if IsTried(t, r, MAX_PDP - n) then TryDefaultBearer(t, pdpType, MAX_PDP - n, soFar, r)
    else ReuseAmongLast(t, pdpType, r, n - 1, ShareableCid(t, r, MAX_PDP - n, soFar))
  }

  function ReuseDefaultBearer(t: Tables, pdpType: PdpType, r: DefaultBearer): (Tables, int) {
    if r.possible then ReuseAmongLast(t, pdpType, r, |t.row|, -1) else (t, -1)
  }

  // ---------- the retry machine ----------

  /** How requestSetupDataCall leaves its retry loop; all but Refused go to `done`. */
  datatype Exit = Reused | Activated | RetriesExhausted | SplitIntoTwo | Refused

  datatype Next = RetryCounted | RetryMarked | Leave(exit: Exit)

  /** The rest of a pass, when no default bearer is reused. */
  function TryFreshSlot(t: Tables, pdpType: PdpType, canRetry: bool, p: Pass): (Tables, Next, int) {
    var i := FirstFree(t.row, p.hidden);
    if i == -1 then (t, Leave(Refused), -1)
    else
      var (tried, ret) := Activate(Take(t, i), i, -1, p.activation);
      match ret
      case 0 =>
        var both := pdpType.Ipv4v6? || pdpType.Ipv4PlusIpv6?;
        (if both && p.lte then FallBack(tried, pdpType, i, p.fallback) else tried, Leave(Activated), i)
      case 1 => (tried, if canRetry then RetryCounted else Leave(RetriesExhausted), i)
      case 2 =>
        var (two, ok) := SplitInTwo(tried, i, p.split);
        (two, Leave(if ok then SplitIntoTwo else Refused), i)
      case 3 => (tried.(row := UpdateCid(tried.row, i + 1, -1)), RetryMarked, i)
      case _ => (tried, Leave(Refused), i)
  }

  /** One pass from the label RETRY; `stale` is the index the last pass has left. */
  function Attempt(t: Tables, pdpType: PdpType, canRetry: bool, stale: int, p: Pass): (Tables, Next, int) {
    var (reuse, ret) := ReuseDefaultBearer(t, pdpType, p.reuse);
    if ret > 0 then (reuse, Leave(Reused), ret - 1)
    else if ret == -3 then (reuse, Leave(Refused), stale)
    else if ret == -2 && canRetry then (reuse, RetryCounted, stale)
    else TryFreshSlot(reuse, pdpType, canRetry, p)
  }

  /** The end of the retry loop. `last` is the pass that left it, entered with the tables `at` after
      `retried` counted retries. */
  datatype End = End(tables: Tables, exit: Exit, index: int, retried: nat, last: nat, at: Tables)

  function Loop(t: Tables, pdpType: PdpType, m: Passes, k: nat, retried: nat, stale: int): (r: End)
    requires retried <= MAX_RETRIES && k <= retried + |Unusable(t.row)|
    ensures r.last < MAX_PASSES
    decreases MAX_RETRIES - retried + MAX_PDP - |Unusable(t.row)|
  {
    UnusableBound(t.row);
    var (u, next, index) := Attempt(t, pdpType, retried < MAX_RETRIES, stale, m[k]);
    UnusableBound(u.row);
    AttemptMarks(t, pdpType, retried < MAX_RETRIES, stale, m[k]);
    match next
    case RetryCounted => Loop(u, pdpType, m, k + 1, retried + 1, index)
    case RetryMarked => Loop(u, pdpType, m, k + 1, retried, index)
    case Leave(exit) => End(u, exit, index, retried, k, t)
  }

  // ---------- the marks of the loop ----------

  lemma SubsetSize(a: set<int>, b: set<int>)
    requires a <= b
    ensures |a| <= |b| && (a != b ==> |a| < |b|)
  {
    assert b == a + (b - a) && |b| == |a| + |b - a|;
    assert a != b ==> b - a != {};
  }

  lemma UnusableBound(row: Row)
    ensures |Unusable(row)| <= MAX_PDP
  {
    SubsetSize(Unusable(row), {0, 1, 2, 3, 4, 5});
    assert |{0, 1, 2, 3, 4, 5}| == 6;
  }

  lemma PutKeepsMarks(row: Row, i: int)
    requires IsIndex(i) && row[i].cid != UNUSABLE_CID
    ensures Unusable(Put(row, i)) == Unusable(row)
  {
  }

  lemma {:induction false} ReuseKeepsMarks(t: Tables, pdpType: PdpType, r: DefaultBearer, n: nat, soFar: int)
    requires n <= MAX_PDP && soFar != 0
    ensures ReuseAmongLast(t, pdpType, r, n, soFar).1 <= 0 ==>
      Unusable(t.row) <= Unusable(ReuseAmongLast(t, pdpType, r, n, soFar).0.row)
    decreases n
  {
    if n > 0 && !IsTried(t, r, MAX_PDP - n) {
      ReuseKeepsMarks(t, pdpType, r, n - 1, ShareableCid(t, r, MAX_PDP - n, soFar));
    }
  }

  /** A pass that goes back to RETRY has used a counted retry, or marked one more slot unusable. */
  lemma AttemptMarks(t: Tables, pdpType: PdpType, canRetry: bool, stale: int, p: Pass)
    ensures var (u, next, _) := Attempt(t, pdpType, canRetry, stale, p);
      && (next == RetryCounted ==> canRetry && |Unusable(t.row)| <= |Unusable(u.row)|)
      && (next == RetryMarked ==> |Unusable(t.row)| < |Unusable(u.row)|)
  {
    var (reuse, ret) := ReuseDefaultBearer(t, pdpType, p.reuse);
    if p.reuse.possible {
      ReuseKeepsMarks(t, pdpType, p.reuse, |t.row|, -1);
    }
    var (u, next, i) := Attempt(t, pdpType, canRetry, stale, p);
    if next == RetryCounted || next == RetryMarked {
      SubsetSize(Unusable(t.row), Unusable(reuse.row));
      if !(ret == -2 && canRetry) {
        FreshMarks(reuse, pdpType, canRetry, p);
      }
    }
  }

  lemma FreshMarks(t: Tables, pdpType: PdpType, canRetry: bool, p: Pass)
    ensures var (u, next, _) := TryFreshSlot(t, pdpType, canRetry, p);
      && (next == RetryCounted ==> canRetry && |Unusable(t.row)| <= |Unusable(u.row)|)
      && (next == RetryMarked ==> |Unusable(t.row)| < |Unusable(u.row)|)
  {
    var i := FirstFree(t.row, p.hidden);
    var (u, next, _) := TryFreshSlot(t, pdpType, canRetry, p);
    if next == RetryCounted || next == RetryMarked {
      var taken := Occupy(t.row, i);
      assert Unusable(taken) == Unusable(t.row);
      PutKeepsMarks(taken, i);
      if next == RetryMarked {
        assert Unusable(u.row) == Unusable(t.row) + {i};
      }
    }
  }

  // ---------- what a setup may touch ----------

  /** Every busy context but `p` is untouched, and only contexts that were idle have been given back. */
  predicate Keeps(t: Tables, u: Tables, p: int) {
    && (forall j :: 0 <= j < MAX_PDP && j != p && t.row[j].state == Busy ==> u.row[j] == t.row[j])
    && t.puts <= u.puts
    && (forall j :: j in u.puts && j !in t.puts ==> IsIndex(j) && j != p && t.row[j].state == Idle)
  }

  predicate BusyWithin(before: Row, after: Row, extra: set<int>) {
    forall i :: 0 <= i < MAX_PDP && after[i].state == Busy ==> before[i].state == Busy || i in extra
  }

  /** The records are those of `c` but for the contexts given back, whose use count is 0. */
  predicate Ledger(c: Channels, t: Tables) {
    forall j :: 0 <= j < MAX_PDP ==>
      t.channels[j] == if j in t.puts then c[j].(count := 0, pdpState := false) else c[j]
  }

  lemma Composes(t: Tables, u: Tables, v: Tables, p: int)
    requires Keeps(t, u, -1) && Keeps(u, v, p)
    requires p == -1 || (IsIndex(p) && t.row[p].state == Idle)
    ensures Keeps(t, v, -1)
  {
  }

  /** A free slot is taken and activated on its own: at most that slot differs. */
  lemma FreshActivation(t: Tables, i: int, a: Activation)
    requires Paired(t.row) && IsFree(t.row, i)
    ensures var (u, ret) := Activate(Take(t, i), i, -1, a);
      && Paired(u.row) && (forall j :: 0 <= j < MAX_PDP && j != i ==> u.row[j] == t.row[j])
      && (ret == SUCCESS ==> u.row[i] == t.row[i].(state := Busy, cid := i + 1))
      && (ret != SUCCESS ==> u.row[i] == FREE_SLOT)
      && u.puts == t.puts + (if ret == SUCCESS then {} else {i}) && t.row[i].secondary == -1
  {
    TakenIsPaired(t.row, i);
    if a.contextSet && a.data.Connected? {
      UpIsPaired(t.row, i);
    } else {
      PutIsFree(Occupy(t.row, i), i);
    }
  }

  lemma TakenIsPaired(row: Row, i: int)
    requires Paired(row) && IsFree(row, i)
    ensures row[i].secondary == -1 && Paired(Occupy(row, i))
  {
  }

  lemma UpIsPaired(row: Row, i: int)
    requires IsIndex(i) && Paired(Occupy(row, i))
    ensures var up := UpdateCid(Occupy(row, i), i + 1, 1);
      Paired(up) && up[i] == row[i].(state := Busy, cid := i + 1)
      && forall j :: 0 <= j < MAX_PDP && j != i ==> up[j] == row[j]
  {
    UpdateKeepsPairing(Occupy(row, i), i + 1, 1);
  }

  lemma PutIsFree(row: Row, i: int)
    requires IsIndex(i) && Paired(row) && row[i].secondary == -1
    ensures Paired(Put(row, i)) && Put(row, i)[i] == FREE_SLOT
    ensures forall j :: 0 <= j < MAX_PDP && j != i ==> Put(row, i)[j] == row[j]
  {
    PutKeepsPairing(row, i);
  }

  ghost predicate FallBackResult(t: Tables, u: Tables, p: int, pdpType: PdpType) {
    && Paired(u.row) && IsBusy(u.row, p) && Keeps(t, u, p)
    && (exists b :: BusyWithin(t.row, u.row, {b}))
    && u.row[p].cid == p + 1 && (u.row[p].secondary != -1 ==> u.row[p].primary && pdpType.Ipv4v6?)
  }

  predicate LoneContext(row: Row, p: int) {
    Paired(row) && IsBusy(row, p) && row[p].secondary == -1 && row[p].cid == p + 1
  }

  lemma OneMoreSlot(t: Tables, u: Tables, i: int, p: int, pdpType: PdpType)
    requires LoneContext(t.row, p) && IsFree(t.row, i) && Paired(u.row)
    requires forall j :: 0 <= j < MAX_PDP && j != i ==> u.row[j] == t.row[j]
    requires u.puts == t.puts || u.puts == t.puts + {i}
    ensures FallBackResult(t, u, p, pdpType)
  {
    assert BusyWithin(t.row, u.row, {i});
  }

  lemma PairedFallback(t: Tables, i: int, p: int)
    requires LoneContext(t.row, p) && IsFree(t.row, i)
    ensures FallBackResult(t, t.(row := SetMapping(Occupy(t.row, i), p, i)), p, Ipv4v6)
  {
    var taken := Occupy(t.row, i);
    assert t.row[i].secondary == -1 && Paired(taken);
    MappingKeepsPairing(taken, p, i);
    assert BusyWithin(t.row, SetMapping(taken, p, i), {i});
  }

  lemma RefusedFallback(t: Tables, i: int, p: int, pdpType: PdpType)
    requires LoneContext(t.row, p) && IsFree(t.row, i)
    ensures FallBackResult(t, PutAt(Take(t, i), i), p, pdpType)
  {
    assert t.row[i].secondary == -1 && Paired(Occupy(t.row, i));
    PutKeepsPairing(Occupy(t.row, i), i);
    OneMoreSlot(t, PutAt(Take(t, i), i), i, p, pdpType);
  }

  /** The fallback of a busy, unpaired context p: nothing, or one more context, paired with p if it
      is an IPv4v6 one. */
  lemma FallBackKeeps(t: Tables, pdpType: PdpType, p: int, f: Fallback)
    requires LoneContext(t.row, p)
    ensures FallBackResult(t, FallBack(t, pdpType, p, f), p, pdpType)
  {
    var i := FirstFree(t.row, f.hidden);
    assert BusyWithin(t.row, t.row, {p});
    if i != -1 {
      if pdpType.Ipv4v6? {
        PairedFallback(t, i, p);
        RefusedFallback(t, i, p, pdpType);
      } else {
        FreshActivation(t, i, f.activation);
        OneMoreSlot(t, Activate(Take(t, i), i, -1, f.activation).0, i, p, pdpType);
      }
    }
  }

  /** The cids of a row do not matter to its pairing. */
  lemma SamePairing(row: Row, after: Row)
    requires Paired(row) && forall j :: 0 <= j < MAX_PDP ==> after[j].(cid := 0) == row[j].(cid := 0)
    ensures Paired(after)
  {
    assert forall j :: 0 <= j < MAX_PDP ==>
      && after[j].secondary == row[j].secondary
      && after[j].primary == row[j].primary
      && after[j].state == row[j].state;
  }

  lemma SecondContext(t: Tables, i: int, j: int, a: Activation)
    requires Paired(t.row) && IsFree(t.row, j) && i != j
    ensures var u := Activate(Take(t, j), j, -1, a).0;
      && Paired(u.row) && Keeps(t, u, -1) && BusyWithin(t.row, u.row, {j})
      && (IsIndex(i) ==> u.row[i] == t.row[i])
  {
    FreshActivation(t, j, a);
  }

  ghost predicate SplitResult(t: Tables, u: Tables, i: int, ok: bool) {
    && Paired(u.row) && Keeps(t, u, -1) && (exists b :: BusyWithin(t.row, u.row, {b}))
    && IsIndex(i) && u.row[i].state == Idle && (ok ==> u.row[i].cid == i + 1)
  }

  lemma SplitMarks(t: Tables, marked: Tables, u: Tables, i: int)
    requires IsIndex(i) && t.row[i].state == Idle && marked.row == t.row[i := t.row[i].(cid := i + 1)]
    requires marked.puts == t.puts && Paired(u.row) && Keeps(marked, u, -1) && u.row[i] == marked.row[i]
    requires exists b :: BusyWithin(marked.row, u.row, {b})
    ensures SplitResult(t, u, i, true)
  {
    var b :| BusyWithin(marked.row, u.row, {b});
    assert BusyWithin(t.row, u.row, {b});
    Composes(t, marked, u, -1);
  }

  lemma SplitKeeps(t: Tables, i: int, s: Split)
    requires Paired(t.row) && IsIndex(i) && t.row[i].state == Idle
    ensures SplitResult(t, SplitInTwo(t, i, s).0, i, SplitInTwo(t, i, s).1)
    ensures SplitInTwo(t, i, s).1 <==> s.contextSet && s.data.Connected?
  {
    assert BusyWithin(t.row, t.row, {i});
    if s.contextSet && s.data.Connected? {
      var marked := t.(row := UpdateCid(t.row, i + 1, 1));
      SamePairing(t.row, marked.row);
      assert BusyWithin(marked.row, marked.row, {i});
      var j := FirstFree(marked.row, s.hidden);
      if j == -1 {
        SplitMarks(t, marked, marked, i);
      } else {
        SecondContext(marked, i, j, s.second);
        SplitMarks(t, marked, Activate(Take(marked, j), j, -1, s.second).0, i);
      }
    }
  }

  /** Slots may have been marked unusable, and nothing else has happened. */
  predicate OnlyMarked(t: Tables, u: Tables) {
    && Keeps(t, u, -1)
    && (forall j :: 0 <= j < MAX_PDP ==> u.row[j].state == t.row[j].state)
  }

  ghost predicate ReuseResult(t: Tables, u: Tables, ret: int) {
    && Paired(u.row) && Keeps(t, u, -1) && (exists a, b :: BusyWithin(t.row, u.row, {a, b}))
    && (ret in {-1, -2, -3} || (0 < ret <= MAX_PDP && IsBusy(u.row, ret - 1)))
    && (ret <= 0 ==> OnlyMarked(t, u))
  }

  lemma BearerUp(t: Tables, up: Tables, u: Tables, i: int, pdpType: PdpType)
    requires IsIndex(i) && t.row[i].state == Idle && up.puts == t.puts
    requires forall j :: 0 <= j < MAX_PDP && j != i ==> up.row[j] == t.row[j]
    requires FallBackResult(up, u, i, pdpType)
    ensures ReuseResult(t, u, i + 1)
  {
    var b :| BusyWithin(up.row, u.row, {b});
    assert BusyWithin(t.row, u.row, {i, b});
    Composes(t, up, u, i);
  }

  lemma MarkedActive(row: Row, i: int)
    requires Paired(row) && IsIndex(i) && row[i].state == Idle
    ensures var up := UpdateCid(Occupy(row, i), i + 1, 1);
      LoneContext(up, i) && forall j :: 0 <= j < MAX_PDP && j != i ==> up[j] == row[j]
  {
    assert row[i].secondary == -1 && Paired(Occupy(row, i));
    UpdateKeepsPairing(Occupy(row, i), i + 1, 1);
  }

  lemma DefaultBearerComesUp(t: Tables, pdpType: PdpType, i: int, f: Fallback)
    requires Paired(t.row) && IsIndex(i) && t.row[i].state == Idle
    ensures var up := t.(row := UpdateCid(Take(t, i).row, i + 1, 1));
      ReuseResult(t, FallBack(up, pdpType, i, f), i + 1)
  {
    MarkedActive(t.row, i);
    var up := t.(row := UpdateCid(Take(t, i).row, i + 1, 1));
    FallBackKeeps(up, pdpType, i, f);
    BearerUp(t, up, FallBack(up, pdpType, i, f), i, pdpType);
  }

  lemma BearerNotUp(t: Tables, u: Tables, i: int, ret: int)
    requires IsIndex(i) && t.row[i].state == Idle && u.row[i].state == Idle && Paired(u.row)
    requires u.puts == t.puts && forall j :: 0 <= j < MAX_PDP && j != i ==> u.row[j] == t.row[j]
    requires ret in {-1, -2, -3} || (0 < ret <= MAX_PDP && IsBusy(t.row, ret - 1))
    ensures ReuseResult(t, u, ret)
  {
    assert BusyWithin(t.row, u.row, {i, i});
  }

  lemma FailedAttempt(row: Row, i: int, marked: bool)
    requires Paired(row) && IsIndex(i) && row[i].state == Idle
    ensures var taken := Occupy(row, i);
      var after := PutByIndex(if marked then UpdateCid(taken, i + 1, -1) else taken, i);
      && Paired(after) && after[i].state == Idle
      && forall j :: 0 <= j < MAX_PDP && j != i ==> after[j] == row[j]
  {
    var taken := Occupy(row, i);
    SamePairing(row, PutByIndex(if marked then UpdateCid(taken, i + 1, -1) else taken, i));
  }

  lemma DefaultBearerKeeps(t: Tables, pdpType: PdpType, i: int, soFar: int, r: DefaultBearer)
    requires Paired(t.row) && IsIndex(i) && t.row[i].state == Idle
    requires CidSoFar(t.row, soFar)
    ensures var (u, ret) := TryDefaultBearer(t, pdpType, i, soFar, r);
      ReuseResult(t, u, ret)
  {
    if r.data.Connected? {
      DefaultBearerComesUp(t, pdpType, i, r.fallback);
    } else {
      var marked := Code(r.data) == NEED_ANOTHER_CID;
      FailedAttempt(t.row, i, marked);
      var (u, ret) := TryDefaultBearer(t, pdpType, i, soFar, r);
      BearerNotUp(t, u, i, ret);
    }
  }

  predicate CidSoFar(row: Row, soFar: int) {
    soFar == -1 || (0 < soFar <= MAX_PDP && IsBusy(row, soFar - 1))
  }

  lemma ShareableIsBusy(t: Tables, r: DefaultBearer, i: int, soFar: int)
    requires IsIndex(i) && CidSoFar(t.row, soFar) && !IsTried(t, r, i)
    ensures CidSoFar(t.row, ShareableCid(t, r, i, soFar))
  {
  }

  /** The one PDN that is tried, or -1, and the cid to share so far. */
  lemma {:induction false} ReuseTriesOne(t: Tables, pdpType: PdpType, r: DefaultBearer, n: nat, soFar: int)
    returns (i: int, cid: int)
    requires n <= MAX_PDP && CidSoFar(t.row, soFar)
    ensures CidSoFar(t.row, cid) && (i == -1 || IsTried(t, r, i))
    ensures ReuseAmongLast(t, pdpType, r, n, soFar)
            == if i == -1 then (t, cid) else TryDefaultBearer(t, pdpType, i, cid, r)
    decreases n
  {
    i, cid := MAX_PDP - n, soFar;
    if n == 0 {
      i := -1;
    } else if !IsTried(t, r, i) {
      ShareableIsBusy(t, r, i, soFar);
      i, cid := ReuseTriesOne(t, pdpType, r, n - 1, ShareableCid(t, r, i, soFar));
    }
  }

  lemma ReuseKeeps(t: Tables, pdpType: PdpType, r: DefaultBearer, n: nat, soFar: int)
    requires Paired(t.row) && n <= MAX_PDP && CidSoFar(t.row, soFar)
    ensures var (u, ret) := ReuseAmongLast(t, pdpType, r, n, soFar);
      ReuseResult(t, u, ret)
  {
    var i, cid := ReuseTriesOne(t, pdpType, r, n, soFar);
    if i == -1 {
      assert BusyWithin(t.row, t.row, {0, 0});
    } else {
      DefaultBearerKeeps(t, pdpType, i, cid, r);
    }
  }

  /** The slot a pass ends with: a context that was activated is marked active and, if it has a
      fallback, is the primary of an IPv4v6 pair; after a split the mark is there but the slot is free;
      and a slot whose retries are used up is as free as any. */
  predicate EndsWith(exit: Exit, row: Row, i: int, pdpType: PdpType) {
    && IsIndex(i)
    && (IsBusy(row, i) <==> exit == Reused || exit == Activated)
    && (exit == Activated || exit == SplitIntoTwo ==> row[i].cid == i + 1)
    && (exit == Activated && row[i].secondary != -1 ==> row[i].primary && pdpType.Ipv4v6?)
    && (exit == RetriesExhausted ==> row[i] == FREE_SLOT)
  }

  /** What holds of a pass, however it ends. */
  ghost predicate PassKeeps(t: Tables, u: Tables, next: Next, index: int, pdpType: PdpType) {
    && Paired(u.row) && Keeps(t, u, -1) && (exists a, b :: BusyWithin(t.row, u.row, {a, b}))
    && (next.Leave? && next.exit != Refused ==> EndsWith(next.exit, u.row, index, pdpType))
    && (!next.Leave? || next.exit == Refused ==>
          OnlyMarked(t, u) && (index == -1 || (IsIndex(index) && u.row[index].state == Idle)))
  }

  /** A change behind the activation of slot i, seen from before it. */
  lemma Behind(t: Tables, tried: Tables, u: Tables, i: int, p: int)
    requires IsFree(t.row, i) && forall j :: 0 <= j < MAX_PDP && j != i ==> tried.row[j] == t.row[j]
    requires tried.puts == t.puts || tried.puts == t.puts + {i}
    requires Keeps(tried, u, p) && (p == -1 || p == i) && exists b :: BusyWithin(tried.row, u.row, {b})
    ensures Keeps(t, u, -1) && exists b :: BusyWithin(t.row, u.row, {i, b})
  {
    Composes(t, tried, u, p);
    var b :| BusyWithin(tried.row, u.row, {b});
    assert BusyWithin(t.row, u.row, {i, b});
  }

  lemma UpSlotKeeps(t: Tables, tried: Tables, u: Tables, i: int, p: int, pdpType: PdpType)
    requires IsFree(t.row, i) && forall j :: 0 <= j < MAX_PDP && j != i ==> tried.row[j] == t.row[j]
    requires tried.puts == t.puts && Paired(u.row) && Keeps(tried, u, p) && (p == -1 || p == i)
    requires exists b :: BusyWithin(tried.row, u.row, {b})
    requires EndsWith(Activated, u.row, i, pdpType)
    ensures PassKeeps(t, u, Leave(Activated), i, pdpType) && exists b :: BusyWithin(t.row, u.row, {i, b})
  {
    Behind(t, tried, u, i, p);
  }

  lemma ActivatedSlotKeeps(t: Tables, pdpType: PdpType, i: int, p: Pass, fallBack: bool)
    requires Paired(t.row) && IsFree(t.row, i) && p.activation.contextSet && p.activation.data.Connected?
    ensures var tried := Activate(Take(t, i), i, -1, p.activation).0;
      var u := if fallBack then FallBack(tried, pdpType, i, p.fallback) else tried;
      PassKeeps(t, u, Leave(Activated), i, pdpType) && exists b :: BusyWithin(t.row, u.row, {i, b})
  {
    FreshActivation(t, i, p.activation);
    var tried := Activate(Take(t, i), i, -1, p.activation).0;
    if fallBack {
      FallBackKeeps(tried, pdpType, i, p.fallback);
      UpSlotKeeps(t, tried, FallBack(tried, pdpType, i, p.fallback), i, i, pdpType);
    } else {
      assert BusyWithin(tried.row, tried.row, {i});
      UpSlotKeeps(t, tried, tried, i, -1, pdpType);
    }
  }

  lemma SplitSlotKeeps(t: Tables, pdpType: PdpType, tried: Tables, i: int, p: Split)
    requires IsFree(t.row, i) && forall j :: 0 <= j < MAX_PDP && j != i ==> tried.row[j] == t.row[j]
    requires Paired(tried.row) && tried.row[i] == FREE_SLOT && tried.puts == t.puts + {i}
    ensures var (u, ok) := SplitInTwo(tried, i, p);
      && PassKeeps(t, u, Leave(if ok then SplitIntoTwo else Refused), i, pdpType)
      && exists b :: BusyWithin(t.row, u.row, {i, b})
  {
    SplitKeeps(tried, i, p);
    Behind(t, tried, SplitInTwo(tried, i, p).0, i, -1);
  }

  lemma MarkedSlotKeeps(t: Tables, pdpType: PdpType, tried: Tables, i: int, next: Next, marked: bool)
    requires IsFree(t.row, i) && forall j :: 0 <= j < MAX_PDP && j != i ==> tried.row[j] == t.row[j]
    requires Paired(tried.row) && tried.row[i] == FREE_SLOT && tried.puts == t.puts + {i}
    requires !next.Leave? || next.exit == Refused || (next.exit == RetriesExhausted && !marked)
    ensures var u := if marked then tried.(row := UpdateCid(tried.row, i + 1, -1)) else tried;
      PassKeeps(t, u, next, i, pdpType) && exists b :: BusyWithin(t.row, u.row, {i, b})
  {
    UpdateKeepsPairing(tried.row, i + 1, -1);
    var u := if marked then tried.(row := UpdateCid(tried.row, i + 1, -1)) else tried;
    assert BusyWithin(tried.row, u.row, {i});
    Behind(t, tried, u, i, -1);
  }

  lemma RefusedSlotKeeps(t: Tables, pdpType: PdpType, canRetry: bool, i: int, p: Pass)
    requires Paired(t.row) && i == FirstFree(t.row, p.hidden) && i != -1
    requires !(p.activation.contextSet && p.activation.data.Connected?)
    ensures var (u, next, index) := TryFreshSlot(t, pdpType, canRetry, p);
      PassKeeps(t, u, next, i, pdpType) && index == i && exists b :: BusyWithin(t.row, u.row, {i, b})
  {
    FreshActivation(t, i, p.activation);
    var (tried, ret) := Activate(Take(t, i), i, -1, p.activation);
    var (u, next, _) := TryFreshSlot(t, pdpType, canRetry, p);
    if ret == NEED_FALLBACK {
      SplitSlotKeeps(t, pdpType, tried, i, p.split);
    } else {
      MarkedSlotKeeps(t, pdpType, tried, i, next, ret == NEED_ANOTHER_CID);
    }
  }

  lemma FreshSlotKeeps(t: Tables, pdpType: PdpType, canRetry: bool, p: Pass)
    requires Paired(t.row)
    ensures var (u, next, index) := TryFreshSlot(t, pdpType, canRetry, p);
      && PassKeeps(t, u, next, index, pdpType) && (exists b :: BusyWithin(t.row, u.row, {index, b}))
      && next != Leave(Reused)
  {
    var i := FirstFree(t.row, p.hidden);
    if i == -1 {
      assert BusyWithin(t.row, t.row, {-1, -1});
    } else if p.activation.contextSet && p.activation.data.Connected? {
      ActivatedSlotKeeps(t, pdpType, i, p, (pdpType.Ipv4v6? || pdpType.Ipv4PlusIpv6?) && p.lte);
    } else {
      RefusedSlotKeeps(t, pdpType, canRetry, i, p);
    }
  }

  /** What the two halves of a pass keep, the pass keeps. */
  lemma PassComposes(t: Tables, reuse: Tables, u: Tables, next: Next, index: int, pdpType: PdpType)
    requires OnlyMarked(t, reuse) && PassKeeps(reuse, u, next, index, pdpType)
    ensures PassKeeps(t, u, next, index, pdpType)
  {
    Composes(t, reuse, u, -1);
    var a, b :| BusyWithin(reuse.row, u.row, {a, b});
    assert BusyWithin(t.row, u.row, {a, b});
  }

  lemma DefaultBearerIsReused(t: Tables, pdpType: PdpType, r: DefaultBearer)
    requires Paired(t.row)
    ensures var (reuse, ret) := ReuseDefaultBearer(t, pdpType, r);
      ReuseResult(t, reuse, ret)
  {
    assert BusyWithin(t.row, t.row, {0, 0});
    if r.possible {
      ReuseKeeps(t, pdpType, r, |t.row|, -1);
    }
  }

  lemma AttemptKeeps(t: Tables, pdpType: PdpType, canRetry: bool, stale: int, p: Pass)
    requires Paired(t.row) && (stale == -1 || (IsIndex(stale) && t.row[stale].state == Idle))
    ensures var (u, next, index) := Attempt(t, pdpType, canRetry, stale, p);
      PassKeeps(t, u, next, index, pdpType)
  {
    var (reuse, ret) := ReuseDefaultBearer(t, pdpType, p.reuse);
    DefaultBearerIsReused(t, pdpType, p.reuse);
    if ret <= 0 {
      FreshAttemptKeeps(t, reuse, pdpType, canRetry, p);
    }
  }

  lemma FreshAttemptKeeps(t: Tables, reuse: Tables, pdpType: PdpType, canRetry: bool, p: Pass)
    requires Paired(reuse.row) && OnlyMarked(t, reuse)
    ensures var (u, next, index) := TryFreshSlot(reuse, pdpType, canRetry, p);
      PassKeeps(t, u, next, index, pdpType)
  {
    FreshSlotKeeps(reuse, pdpType, canRetry, p);
    var (u, next, index) := TryFreshSlot(reuse, pdpType, canRetry, p);
    PassComposes(t, reuse, u, next, index, pdpType);
  }

  /** One pass of the loop, and what it uses up. */
  lemma LoopStep(t: Tables, pdpType: PdpType, m: Passes, k: nat, retried: nat, stale: int,
                 u: Tables, next: Next, index: int)
    requires retried <= MAX_RETRIES && k <= retried + |Unusable(t.row)| && k < MAX_PASSES
    requires (u, next, index) == Attempt(t, pdpType, retried < MAX_RETRIES, stale, m[k])
    ensures match next
      case RetryCounted =>
        && retried < MAX_RETRIES && |Unusable(t.row)| <= |Unusable(u.row)|
        && Loop(t, pdpType, m, k, retried, stale) == Loop(u, pdpType, m, k + 1, retried + 1, index)
      case RetryMarked =>
        && |Unusable(t.row)| < |Unusable(u.row)|
        && Loop(t, pdpType, m, k, retried, stale) == Loop(u, pdpType, m, k + 1, retried, index)
      case Leave(exit) =>
        Loop(t, pdpType, m, k, retried, stale) == End(u, exit, index, retried, k, t)
  {
    AttemptMarks(t, pdpType, retried < MAX_RETRIES, stale, m[k]);
  }

  /** The whole loop: at most two more busy slots, no busy context disturbed, nothing given back but
      idle contexts, and on the way to `error` nothing but marks. */
  ghost predicate LoopResult(t: Tables, e: End, k: nat, retried: nat, pdpType: PdpType) {
    && PassKeeps(t, e.tables, Leave(e.exit), e.index, pdpType) && Paired(e.at.row) && OnlyMarked(t, e.at)
    && k <= e.last < MAX_PASSES && retried <= e.retried <= MAX_RETRIES
  }

  lemma LoopComposes(t: Tables, u: Tables, e: End, k: nat, retried: nat, k0: nat, retried0: nat, pdpType: PdpType)
    requires OnlyMarked(t, u) && LoopResult(u, e, k, retried, pdpType) && k0 <= k && retried0 <= retried
    ensures LoopResult(t, e, k0, retried0, pdpType)
  {
    PassComposes(t, u, e.tables, Leave(e.exit), e.index, pdpType);
    Composes(t, u, e.at, -1);
  }

  /** All that is said about the end of the loop, seen from a pass of it. */
  ghost predicate EndFacts(c: Channels, t: Tables, e: End, k: nat, retried: nat, pdpType: PdpType, m: Passes) {
    && LoopResult(t, e, k, retried, pdpType) && (e.exit != Refused ==> LeavesIdleIff(e, pdpType, m))
    && (Ledger(c, t) ==> Ledger(c, e.tables))
  }

  lemma EndFactsCompose(c: Channels, t: Tables, u: Tables, e: End, k: nat, retried: nat, k0: nat, retried0: nat,
                        pdpType: PdpType, m: Passes)
    requires OnlyMarked(t, u) && (Ledger(c, t) ==> Ledger(c, u)) && k0 <= k && retried0 <= retried
    requires EndFacts(c, u, e, k, retried, pdpType, m)
    ensures EndFacts(c, t, e, k0, retried0, pdpType, m)
  {
    LoopComposes(t, u, e, k, retried, k0, retried0, pdpType);
  }

  /** One pass of the loop: the end of it, or a step towards that end. */
  lemma PassOfLoop(c: Channels, t: Tables, pdpType: PdpType, m: Passes, k: nat, retried: nat, stale: int)
    returns (u: Tables, next: Next, index: int, r: nat)
    requires Paired(t.row) && (stale == -1 || (IsIndex(stale) && t.row[stale].state == Idle))
    requires retried <= MAX_RETRIES && k <= retried + |Unusable(t.row)|
    ensures next.Leave? ==>
      EndFacts(c, t, Loop(t, pdpType, m, k, retried, stale), k, retried, pdpType, m)
    ensures !next.Leave? ==>
      && Paired(u.row) && OnlyMarked(t, u) && (index == -1 || (IsIndex(index) && u.row[index].state == Idle))
      && retried <= r <= MAX_RETRIES && k + 1 <= r + |Unusable(u.row)|
      && 0 <= MAX_RETRIES - r + MAX_PDP - |Unusable(u.row)| < MAX_RETRIES - retried + MAX_PDP - |Unusable(t.row)|
      && Loop(t, pdpType, m, k, retried, stale) == Loop(u, pdpType, m, k + 1, r, index)
      && (Ledger(c, t) ==> Ledger(c, u))
  {
    UnusableBound(t.row);
    var result := Attempt(t, pdpType, retried < MAX_RETRIES, stale, m[k]);
    u, next, index := result.0, result.1, result.2;
    UnusableBound(u.row);
    LoopStep(t, pdpType, m, k, retried, stale, u, next, index);
    AttemptKeeps(t, pdpType, retried < MAX_RETRIES, stale, m[k]);
    if next.Leave? && next.exit != Refused {
      PassEndsIdleIff(t, pdpType, stale, m[k], retried);
    }
    if Ledger(c, t) {
      AttemptKeepsLedger(c, t, pdpType, retried < MAX_RETRIES, stale, m[k]);
    }
    r := if next == RetryCounted then retried + 1 else retried;
  }

  lemma StillOnlyMarked(t: Tables, u: Tables, v: Tables)
    requires OnlyMarked(t, u) && OnlyMarked(u, v)
    ensures OnlyMarked(t, v)
  {
    Composes(t, u, v, -1);
  }

  /** A pass the loop comes to from t: nothing but marks so far, and `end` is where it leads. */
  ghost predicate OnTheWay(c: Channels, t: Tables, u: Tables, pdpType: PdpType, m: Passes, j: nat, n: nat, i: int,
                           end: End, k: nat, retried: nat)
  {
    && Paired(u.row) && OnlyMarked(t, u) && (i == -1 || (IsIndex(i) && u.row[i].state == Idle))
    && retried <= n <= MAX_RETRIES && k <= j <= n + |Unusable(u.row)|
    && Loop(u, pdpType, m, j, n, i) == end && (Ledger(c, t) ==> Ledger(c, u))
  }

  lemma {:induction false} EndOfLoop(c: Channels, t: Tables, u: Tables, pdpType: PdpType, m: Passes, j: nat, n: nat,
                                     i: int, end: End, k: nat, retried: nat)
    requires OnTheWay(c, t, u, pdpType, m, j, n, i, end, k, retried)
    ensures EndFacts(c, t, end, k, retried, pdpType, m)
    decreases MAX_RETRIES - n + MAX_PDP - |Unusable(u.row)|
  {
    var v, next, index, r := PassOfLoop(c, u, pdpType, m, j, n, i);
    if next.Leave? {
      EndFactsCompose(c, t, u, end, j, n, k, retried, pdpType, m);
    } else {
      StillOnlyMarked(t, u, v);
      EndOfLoop(c, t, v, pdpType, m, j + 1, r, index, end, k, retried);
    }
  }

  lemma LoopFacts(c: Channels, t: Tables, pdpType: PdpType, m: Passes, k: nat, retried: nat, stale: int)
    requires Paired(t.row) && (stale == -1 || (IsIndex(stale) && t.row[stale].state == Idle))
    requires retried <= MAX_RETRIES && k <= retried + |Unusable(t.row)|
    ensures EndFacts(c, t, Loop(t, pdpType, m, k, retried, stale), k, retried, pdpType, m)
  {
    EndOfLoop(c, t, t, pdpType, m, k, retried, stale, Loop(t, pdpType, m, k, retried, stale), k, retried);
  }

  lemma LoopKeeps(t: Tables, pdpType: PdpType, m: Passes)
    requires Paired(t.row)
    ensures LoopResult(t, Loop(t, pdpType, m, 0, 0, -1), 0, 0, pdpType)
  {
    LoopFacts(t.channels, t, pdpType, m, 0, 0, -1);
  }

  lemma LoopIndex(t: Tables, pdpType: PdpType, m: Passes)
    requires Paired(t.row)
    ensures var e := Loop(t, pdpType, m, 0, 0, -1);
      e.index < MAX_PDP && (e.exit != Refused ==> IsIndex(e.index))
  {
    LoopKeeps(t, pdpType, m);
  }

  // ---------- the use counts on the way ----------

  lemma PutKeepsLedger(c: Channels, t: Tables, i: int)
    requires Ledger(c, t)
    ensures Ledger(c, PutAt(t, i))
  {
  }

  lemma ActivateKeepsLedger(c: Channels, t: Tables, i: int, p: int, a: Activation)
    requires Ledger(c, t) && IsIndex(i)
    ensures Ledger(c, Activate(Take(t, i), i, p, a).0)
  {
    PutKeepsLedger(c, Take(t, i), i);
  }

  lemma FallBackKeepsLedger(c: Channels, t: Tables, pdpType: PdpType, p: int, f: Fallback)
    requires Ledger(c, t)
    ensures Ledger(c, FallBack(t, pdpType, p, f))
  {
    var i := FirstFree(t.row, f.hidden);
    if i != -1 {
      ActivateKeepsLedger(c, t, i, if pdpType.Ipv4v6? then p else -1, f.activation);
    }
  }

  lemma {:induction false} ReuseKeepsLedger(c: Channels, t: Tables, pdpType: PdpType, r: DefaultBearer,
                                            n: nat, soFar: int)
    requires Ledger(c, t) && n <= MAX_PDP
    ensures Ledger(c, ReuseAmongLast(t, pdpType, r, n, soFar).0)
    decreases n
  {
    var i := MAX_PDP - n;
    if n > 0 {
      if IsTried(t, r, i) {
        FallBackKeepsLedger(c, t.(row := UpdateCid(Occupy(t.row, i), i + 1, 1)), pdpType, i, r.fallback);
      } else {
        ReuseKeepsLedger(c, t, pdpType, r, n - 1, ShareableCid(t, r, i, soFar));
      }
    }
  }

  lemma FreshSlotKeepsLedger(c: Channels, t: Tables, pdpType: PdpType, canRetry: bool, p: Pass)
    requires Ledger(c, t)
    ensures Ledger(c, TryFreshSlot(t, pdpType, canRetry, p).0)
  {
    var i := FirstFree(t.row, p.hidden);
    if i != -1 {
      ActivateKeepsLedger(c, t, i, -1, p.activation);
      var tried := Activate(Take(t, i), i, -1, p.activation).0;
      FallBackKeepsLedger(c, tried, pdpType, i, p.fallback);
      var marked := tried.(row := UpdateCid(tried.row, i + 1, 1));
      var j := FirstFree(marked.row, p.split.hidden);
      if j != -1 {
        ActivateKeepsLedger(c, marked, j, -1, p.split.second);
      }
    }
  }

  lemma AttemptKeepsLedger(c: Channels, t: Tables, pdpType: PdpType, canRetry: bool, stale: int, p: Pass)
    requires Ledger(c, t)
    ensures Ledger(c, Attempt(t, pdpType, canRetry, stale, p).0)
  {
    ReuseKeepsLedger(c, t, pdpType, p.reuse, |t.row|, -1);
    FreshSlotKeepsLedger(c, ReuseDefaultBearer(t, pdpType, p.reuse).0, pdpType, canRetry, p);
  }

  /** Until `done` a setup changes no record but those of the contexts it gives back. */
  lemma LoopKeepsLedger(c: Channels, t: Tables, pdpType: PdpType, m: Passes)
    requires Paired(t.row) && Ledger(c, t)
    ensures Ledger(c, Loop(t, pdpType, m, 0, 0, -1).tables)
  {
    LoopFacts(c, t, pdpType, m, 0, 0, -1);
  }

  // ---------- which answers leave an idle slot behind ----------

  /** A pass that gets as far as a fresh slot. */
  predicate TriesFreshSlot(t: Tables, pdpType: PdpType, p: Pass, retried: nat) {
    var ret := ReuseDefaultBearer(t, pdpType, p.reuse).1;
    ret <= 0 && ret != -3 && (ret != -2 || retried >= MAX_RETRIES)
  }

  /** The fresh slot is refused with 288 when five retries are used, or with 128 and the first of the
      two contexts comes up instead. */
  predicate EndsIdle(t: Tables, pdpType: PdpType, p: Pass, retried: nat) {
    && TriesFreshSlot(t, pdpType, p, retried) && p.activation.contextSet
    && (|| (p.activation.data == Error(288) && retried >= MAX_RETRIES)
        || (p.activation.data == Error(128) && p.split.contextSet && p.split.data.Connected?))
  }

  predicate LeavesIdleIff(e: End, pdpType: PdpType, m: Passes) {
    e.last < MAX_PASSES &&
    (!IsBusy(e.tables.row, e.index) <==> EndsIdle(e.at, pdpType, m[e.last], e.retried))
  }

  /** A setup that goes to `done` ends with an idle slot iff the answers of its last pass are those. */
  lemma IdleIff(t: Tables, pdpType: PdpType, m: Passes)
    requires Paired(t.row) && Loop(t, pdpType, m, 0, 0, -1).exit != Refused
    ensures var e := Loop(t, pdpType, m, 0, 0, -1);
      && e.last < MAX_PASSES
      && (!IsBusy(e.tables.row, e.index) <==> EndsIdle(e.at, pdpType, m[e.last], e.retried))
  {
    LoopFacts(t.channels, t, pdpType, m, 0, 0, -1);
  }

  lemma FreshSlotEndsIdleIff(t: Tables, pdpType: PdpType, p: Pass, retried: nat)
    requires var next := TryFreshSlot(t, pdpType, retried < MAX_RETRIES, p).1; next.Leave? && next.exit != Refused
    ensures TryFreshSlot(t, pdpType, retried < MAX_RETRIES, p).1.exit != Activated <==>
      && p.activation.contextSet
      && (|| (p.activation.data == Error(288) && retried >= MAX_RETRIES)
          || (p.activation.data == Error(128) && p.split.contextSet && p.split.data.Connected?))
  {
  }

  lemma PassEndsIdleIff(t: Tables, pdpType: PdpType, stale: int, p: Pass, retried: nat)
    requires Paired(t.row) && (stale == -1 || (IsIndex(stale) && t.row[stale].state == Idle))
    requires retried <= MAX_RETRIES
    requires var next := Attempt(t, pdpType, retried < MAX_RETRIES, stale, p).1; next.Leave? && next.exit != Refused
    ensures var (u, next, index) := Attempt(t, pdpType, retried < MAX_RETRIES, stale, p);
      !IsBusy(u.row, index) <==> EndsIdle(t, pdpType, p, retried)
  {
    AttemptKeeps(t, pdpType, retried < MAX_RETRIES, stale, p);
    var (reuse, ret) := ReuseDefaultBearer(t, pdpType, p.reuse);
    var (u, next, index) := Attempt(t, pdpType, retried < MAX_RETRIES, stale, p);
    if TriesFreshSlot(t, pdpType, p, retried) {
      FreshSlotEndsIdleIff(reuse, pdpType, p, retried);
      assert next.exit != Reused;
    } else {
      assert next.exit == Reused;
    }
  }

  predicate Refuses(p: Pass, hidden: set<int>) {
    !p.reuse.possible && p.hidden == hidden && p.activation.contextSet && p.activation.data == Error(288)
  }

  /** The tables with free slot i given back. */
  function WithPut(t: Tables, i: int): Tables
    requires IsIndex(i)
  {
    Tables(t.row[i := FREE_SLOT], PutChannel(t.channels, i), t.puts + {i})
  }

  lemma PassIsRefused(t: Tables, pdpType: PdpType, p: Pass, hidden: set<int>, canRetry: bool, stale: int)
    requires Paired(t.row) && FirstFree(t.row, hidden) != -1 && Refuses(p, hidden)
    ensures var i := FirstFree(t.row, hidden);
      Attempt(t, pdpType, canRetry, stale, p)
        == (WithPut(t, i), if canRetry then RetryCounted else Leave(RetriesExhausted), i)
      && Paired(WithPut(t, i).row)
  {
    var i := FirstFree(t.row, hidden);
    FreshActivation(t, i, p.activation);
    assert Activate(Take(t, i), i, -1, p.activation).0.row == t.row[i := FREE_SLOT];
  }

  lemma PutAgain(t: Tables, hidden: set<int>)
    requires FirstFree(t.row, hidden) != -1
    ensures var i := FirstFree(t.row, hidden);
      FirstFree(WithPut(t, i).row, hidden) == i && WithPut(WithPut(t, i), i) == WithPut(t, i)
  {
    var i := FirstFree(t.row, hidden);
    SameFirstFree(t.row, WithPut(t, i).row, hidden, |t.row|);
  }

  predicate EndsRefused(e: End, t: Tables, i: int)
    requires IsIndex(i)
  {
    && e.exit == RetriesExhausted && e.index == i && e.retried == e.last == MAX_RETRIES
    && e.tables == Tables(t.row[i := FREE_SLOT], PutChannel(t.channels, i), t.puts + {i})
  }

  lemma SameEnd(e: End, t: Tables, i: int)
    requires IsIndex(i) && EndsRefused(e, WithPut(t, i), i) && WithPut(WithPut(t, i), i) == WithPut(t, i)
    ensures EndsRefused(e, t, i)
  {
  }

  /** Five times 288 are retried on the same slot; the sixth ends the setup with that slot idle. */
  lemma {:induction false} SixRefusalsEndIdle(t: Tables, pdpType: PdpType, m: Passes, hidden: set<int>,
                                              k: nat, stale: int)
    requires Paired(t.row) && FirstFree(t.row, hidden) != -1 && k <= MAX_RETRIES
    requires forall j :: k <= j <= MAX_RETRIES ==> Refuses(m[j], hidden)
    ensures EndsRefused(Loop(t, pdpType, m, k, k, stale), t, FirstFree(t.row, hidden))
    decreases MAX_RETRIES - k
  {
    var i := FirstFree(t.row, hidden);
    PassIsRefused(t, pdpType, m[k], hidden, k < MAX_RETRIES, stale);
    var (u, next, index) := Attempt(t, pdpType, k < MAX_RETRIES, stale, m[k]);
    LoopStep(t, pdpType, m, k, k, stale, u, next, index);
    if k < MAX_RETRIES {
      PutAgain(t, hidden);
      SixRefusalsEndIdle(u, pdpType, m, hidden, k + 1, i);
      SameEnd(Loop(u, pdpType, m, k + 1, k + 1, i), t, i);
    }
  }

  lemma {:induction false} SameFirstFree(row: Row, after: Row, hidden: set<int>, n: nat)
    requires n <= MAX_PDP && forall i :: 0 <= i < MAX_PDP ==> (IsFree(row, i) <==> IsFree(after, i))
    ensures FreeAmongLast(row, hidden, n) == FreeAmongLast(after, hidden, n)
  {
    if n > 0 {
      SameFirstFree(row, after, hidden, n - 1);
    }
  }

  /** At once, when the first fresh slot is refused with 128 and split. */
  lemma FirstSplitEndsIdle(t: Tables, pdpType: PdpType, m: Passes)
    requires Paired(t.row) && FirstFree(t.row, m[0].hidden) != -1 && !m[0].reuse.possible
    requires m[0].activation.contextSet && m[0].activation.data == Error(128)
    requires m[0].split.contextSet && m[0].split.data.Connected?
    ensures var e := Loop(t, pdpType, m, 0, 0, -1);
      && e.exit == SplitIntoTwo && e.index == FirstFree(t.row, m[0].hidden)
      && e.tables.row[e.index].state == Idle && e.tables.row[e.index].cid == e.index + 1
  {
    FreshSlotKeeps(t, pdpType, true, m[0]);
    var (u, next, index) := TryFreshSlot(t, pdpType, true, m[0]);
    assert next == Leave(SplitIntoTwo) && (u, next, index) == Attempt(t, pdpType, true, -1, m[0]);
  }

  // ---------- the end of a setup ----------

  /** What putUnusablePDPCid makes of a row. */
  function GivenBack(row: Row): (r: Row)
    ensures forall i :: 0 <= i < MAX_PDP ==>
      r[i] == if row[i].cid == UNUSABLE_CID then row[i].(cid := -1) else row[i]
  {
    seq(MAX_PDP, i requires 0 <= i < MAX_PDP =>
      if row[i].cid == UNUSABLE_CID then row[i].(cid := -1) else row[i])
  }

  /** The label `done`. */
  function Finish(t: Tables, i: int): Tables
    requires IsIndex(i)
  {
    var c := t.channels[i];
    t.(row := GivenBack(t.row), channels := t.channels[i := c.(count := c.count + 1, pdpState := true)])
  }

  /** The label `error`. */
  function Refuse(t: Tables, i: int): Tables {
    if !IsIndex(i) then t.(row := GivenBack(t.row))
    else
      var u := PutAt(PutAt(t, t.row[i].secondary - 1), i);
      u.(row := GivenBack(u.row), channels := u.channels[i := u.channels[i].(pdpState := true)])
  }

  /** requestOrSendDataCallList for a finished setup: a context that is listed as inactive, or was
      detached meanwhile, is put together with its fallback. */
  function Report(t: Tables, i: int, listing: Listing): Tables
    requires IsIndex(i)
  {
    if listing.Detached? || listing.Inactive? then PutAt(PutAt(t, t.row[i].secondary - 1), i) else t
  }

  datatype Modem = Modem(passes: Passes, listing: Listing)

  /** `success` is what the framework is told; `attached` says that the setup is counted in the end. */
  datatype Outcome = Outcome(tables: Tables, exit: Exit, index: int, success: bool, attached: bool)

  /** requestSetupDataCall */
  function Setup(t: Tables, pdpType: PdpType, m: Modem): Outcome
    requires Paired(t.row)
  {
    LoopKeeps(t, pdpType, m.passes);
    var e := Loop(t, pdpType, m.passes, 0, 0, -1);
    if e.exit == Refused then Outcome(Refuse(e.tables, e.index), Refused, e.index, false, false)
    else
      Outcome(Report(Finish(e.tables, e.index), e.index, m.listing), e.exit, e.index, m.listing.Active?,
              !m.listing.Detached? && !m.listing.Inactive?)
  }

  lemma GivenBackKeeps(row: Row)
    requires Paired(row)
    ensures Paired(GivenBack(row)) && Unusable(GivenBack(row)) == {}
  {
    SamePairing(row, GivenBack(row));
  }

  /** Putting partner and slot, in terms of the tables. */
  lemma PutPair(t: Tables, i: int)
    requires Paired(t.row) && IsIndex(i)
    ensures var j := t.row[i].secondary - 1;
      var u := PutAt(PutAt(t, j), i);
      && Paired(u.row) && u.row[i] == FREE_SLOT
      && (forall k :: 0 <= k < MAX_PDP ==> u.row[k] == if k == i || k == j then FREE_SLOT else t.row[k])
      && u.puts == t.puts + {i} + (if t.row[i].secondary != -1 then {j} else {})
  {
    PutBoth(t.row, i);
  }

  /** Every context that was up and has not been given back is as it was. */
  predicate Untouched(t: Tables, u: Tables) {
    forall j :: 0 <= j < MAX_PDP && t.row[j].state == Busy && j !in u.puts ==> u.row[j] == GivenBack(t.row)[j]
  }

  /** The busy slots are the same ones, and none of them has been given back. */
  predicate SameBusy(t: Tables, u: Tables) {
    forall j :: 0 <= j < MAX_PDP ==>
      u.row[j].state == t.row[j].state && (j in u.puts && j !in t.puts ==> t.row[j].state == Idle)
  }

  lemma RefuseKeeps(t: Tables, left: Tables, i: int)
    requires Paired(left.row) && OnlyMarked(t, left) && (i == -1 || (IsIndex(i) && left.row[i].state == Idle))
    ensures var u := Refuse(left, i);
      Paired(u.row) && Unusable(u.row) == {} && SameBusy(t, u) && Untouched(t, u)
  {
    if i == -1 {
      GivenBackKeeps(left.row);
    } else {
      PutPair(left, i);
      GivenBackKeeps(PutAt(PutAt(left, left.row[i].secondary - 1), i).row);
    }
  }

  lemma ListedKeeps(t: Tables, left: Tables, i: int)
    requires Paired(left.row) && Keeps(t, left, -1) && IsIndex(i)
    ensures var u := Finish(left, i);
      Paired(u.row) && Unusable(u.row) == {} && Untouched(t, u)
  {
    GivenBackKeeps(left.row);
  }

  lemma UnmarkedIff(row: Row)
    ensures Unusable(row) == {} <==> forall j :: 0 <= j < MAX_PDP ==> row[j].cid != UNUSABLE_CID
  {
    assert forall j :: j in Unusable(row) <==> 0 <= j < MAX_PDP && row[j].cid == UNUSABLE_CID;
  }

  lemma PutKeepsUntouched(t: Tables, u: Tables, v: Tables, i: int)
    requires IsIndex(i) && Paired(u.row) && Unusable(u.row) == {} && Untouched(t, u)
    requires v == PutAt(PutAt(u, u.row[i].secondary - 1), i)
    ensures Paired(v.row) && Unusable(v.row) == {} && Untouched(t, v) && v.row[i] == FREE_SLOT
    ensures forall j :: 0 <= j < MAX_PDP && v.row[j].state == Busy ==> u.row[j].state == Busy
  {
    PutPair(u, i);
    UnmarkedIff(u.row);
    UnmarkedIff(v.row);
    StillUntouched(t, u, v, i);
  }

  lemma StillUntouched(t: Tables, u: Tables, v: Tables, i: int)
    requires IsIndex(i) && Untouched(t, u)
    requires var k := u.row[i].secondary - 1;
      && (forall j :: 0 <= j < MAX_PDP ==> v.row[j] == if j == i || j == k then FREE_SLOT else u.row[j])
      && v.puts == u.puts + {i} + (if u.row[i].secondary != -1 then {k} else {})
      && (u.row[i].secondary == -1 || IsIndex(k))
    ensures Untouched(t, v)
  {
  }

  lemma DoneKeeps(t: Tables, left: Tables, i: int, listing: Listing)
    requires Paired(left.row) && Keeps(t, left, -1) && IsIndex(i)
    ensures var u := Report(Finish(left, i), i, listing);
      && Paired(u.row) && Unusable(u.row) == {} && Untouched(t, u)
      && (forall j :: 0 <= j < MAX_PDP && u.row[j].state == Busy ==> left.row[j].state == Busy)
      && (if listing.Detached? || listing.Inactive? then u.row[i] == FREE_SLOT
          else u.row == GivenBack(left.row))
  {
    ListedKeeps(t, left, i);
    if listing.Detached? || listing.Inactive? {
      PutKeepsUntouched(t, Finish(left, i), Report(Finish(left, i), i, listing), i);
    }
  }

  /** What a setup leaves: no mark, the pairing, at most two more busy slots, and after an error the
      same busy slots. What it attaches to is as EndsWith says. */
  ghost predicate SetupResult(t: Tables, o: Outcome, pdpType: PdpType) {
    && Paired(o.tables.row) && Unusable(o.tables.row) == {} && Untouched(t, o.tables)
    && (exists a, b :: BusyWithin(t.row, o.tables.row, {a, b}))
    && (o.exit == Refused ==> SameBusy(t, o.tables))
    && (o.attached ==> EndsWith(o.exit, o.tables.row, o.index, pdpType))
    && (o.exit != Refused ==> IsIndex(o.index))
    && (o.exit != Refused && !o.attached ==> o.tables.row[o.index] == FREE_SLOT && !o.success)
  }

  lemma SetupKeeps(t: Tables, pdpType: PdpType, m: Modem)
    requires Paired(t.row)
    ensures SetupResult(t, Setup(t, pdpType, m), pdpType)
  {
    LoopKeeps(t, pdpType, m.passes);
    var e := Loop(t, pdpType, m.passes, 0, 0, -1);
    var a, b :| BusyWithin(t.row, e.tables.row, {a, b});
    if e.exit == Refused {
      RefuseKeeps(t, e.tables, e.index);
    } else {
      DoneKeeps(t, e.tables, e.index, m.listing);
    }
    assert BusyWithin(t.row, Setup(t, pdpType, m).tables.row, {a, b});
  }

  lemma FinishCounts(c: Channels, left: Tables, i: int, j: int)
    requires Ledger(c, left) && IsIndex(i) && IsIndex(j)
    ensures Finish(left, i).channels[j].count ==
      (if j in left.puts then 0 else c[j].count) + (if j == i then 1 else 0)
  {
  }

  lemma PairCounts(t: Tables, i: int, j: int)
    requires IsIndex(i) && IsIndex(j) && Paired(t.row)
    ensures var u := PutAt(PutAt(t, t.row[i].secondary - 1), i);
      && (j in u.puts <==> j in t.puts || j == i || j == t.row[i].secondary - 1)
      && u.channels[j].count == if j == i || j == t.row[i].secondary - 1 then 0 else t.channels[j].count
  {
    PutPair(t, i);
  }

  lemma ReportCounts(c: Channels, left: Tables, i: int, listing: Listing, j: int)
    requires Ledger(c, left) && IsIndex(i) && IsIndex(j) && Paired(left.row)
    ensures var u := Report(Finish(left, i), i, listing);
      u.channels[j].count == (if j in u.puts then 0 else c[j].count)
        + (if !listing.Detached? && !listing.Inactive? && j == i then 1 else 0)
  {
    FinishCounts(c, left, i, j);
    GivenBackKeeps(left.row);
    PairCounts(Finish(left, i), i, j);
  }

  lemma RefuseCounts(c: Channels, left: Tables, i: int, j: int)
    requires Ledger(c, left) && IsIndex(j)
    ensures var u := Refuse(left, i);
      u.channels[j].count == if j in u.puts then 0 else c[j].count
  {
    if IsIndex(i) {
      PutKeepsLedger(c, left, left.row[i].secondary - 1);
      PutKeepsLedger(c, PutAt(left, left.row[i].secondary - 1), i);
    }
  }

  /** The law of the use counts: a setup resets those of the contexts it gives back, and adds one to
      the context it attaches to. */
  lemma SetupCounts(t: Tables, pdpType: PdpType, m: Modem, j: int)
    requires Paired(t.row) && t.puts == {} && IsIndex(j)
    ensures var o := Setup(t, pdpType, m);
      o.tables.channels[j].count ==
        (if j in o.tables.puts then 0 else t.channels[j].count) + (if o.attached && j == o.index then 1 else 0)
  {
    LoopKeeps(t, pdpType, m.passes);
    LoopKeepsLedger(t.channels, t, pdpType, m.passes);
    var e := Loop(t, pdpType, m.passes, 0, 0, -1);
    if e.exit == Refused {
      RefuseCounts(t.channels, e.tables, e.index, j);
    } else {
      ReportCounts(t.channels, e.tables, e.index, m.listing, j);
    }
  }

  /** The framework is told of success and the slot is idle iff the context is listed as active and
      the answers of the last pass are those of EndsIdle. */
  lemma SuccessOnIdleSlotIff(t: Tables, pdpType: PdpType, m: Modem)
    requires Paired(t.row)
    ensures var (e, o) := (Loop(t, pdpType, m.passes, 0, 0, -1), Setup(t, pdpType, m));
      && (e.exit != Refused ==> IsIndex(o.index) && e.last < MAX_PASSES)
      && (o.success && !IsBusy(o.tables.row, o.index) <==>
            e.exit != Refused && m.listing.Active? && EndsIdle(e.at, pdpType, m.passes[e.last], e.retried))
  {
    LoopKeeps(t, pdpType, m.passes);
    var e := Loop(t, pdpType, m.passes, 0, 0, -1);
    if e.exit != Refused {
      IdleIff(t, pdpType, m.passes);
    }
  }

  // ---------- three modems ----------

  /** A modem that gives the same answers in every pass. */
  function Always(p: Pass, listing: Listing): Modem {
    Modem(seq(MAX_PASSES, _ => p), listing)
  }

  const REFUSED_PASS := Pass(NO_REUSE, {}, Activation(true, Error(288), false), NO_SPLIT, false, NO_FALLBACK)
  const GOOD_PASS := Pass(NO_REUSE, {}, Activation(true, Connected, false), NO_SPLIT, false, NO_FALLBACK)

  lemma RefusedSetup(t: Tables, listing: Listing)
    requires Paired(t.row) && FirstFree(t.row, {}) != -1
    ensures var i := FirstFree(t.row, {});
      var left := Tables(t.row[i := FREE_SLOT], PutChannel(t.channels, i), t.puts + {i});
      Setup(t, Ip, Always(REFUSED_PASS, listing)) ==
        Outcome(Report(Finish(left, i), i, listing), RetriesExhausted, i, listing.Active?,
                !listing.Detached? && !listing.Inactive?)
  {
    var m := Always(REFUSED_PASS, listing);
    assert |Unusable(t.row)| >= 0;
    SixRefusalsEndIdle(t, Ip, m.passes, {}, 0, -1);
  }

  lemma GoodSetup(t: Tables, listing: Listing)
    requires Paired(t.row) && FirstFree(t.row, {}) != -1
    ensures var i := FirstFree(t.row, {});
      var up := t.(row := t.row[i := t.row[i].(state := Busy, cid := i + 1)]);
      Setup(t, Ip, Always(GOOD_PASS, listing)) ==
        Outcome(Report(Finish(up, i), i, listing), Activated, i, listing.Active?,
                !listing.Detached? && !listing.Inactive?)
  {
    var m := Always(GOOD_PASS, listing);
    var i := FirstFree(t.row, {});
    var up := t.(row := t.row[i := t.row[i].(state := Busy, cid := i + 1)]);
    assert UpdateCid(Occupy(t.row, i), i + 1, 1) == up.row;
    assert Attempt(t, Ip, true, -1, m.passes[0]) == (up, Leave(Activated), i);
    assert Loop(t, Ip, m.passes, 0, 0, -1) == End(up, Activated, i, 0, 0, t);
  }

  lemma SilentSetup(t: Tables, listing: Listing)
    requires Paired(t.row) && FirstFree(t.row, {}) != -1
    ensures var i := FirstFree(t.row, {});
      var left := Tables(t.row[i := FREE_SLOT], PutChannel(t.channels, i), t.puts + {i});
      Setup(t, Ip, Always(SILENT_PASS, listing)) == Outcome(Refuse(left, i), Refused, i, false, false)
  {
    var m := Always(SILENT_PASS, listing);
    var i := FirstFree(t.row, {});
    FreshActivation(t, i, SILENT);
    var left := Tables(t.row[i := FREE_SLOT], PutChannel(t.channels, i), t.puts + {i});
    assert Activate(Take(t, i), i, -1, SILENT).0.row == left.row;
    assert Attempt(t, Ip, true, -1, m.passes[0]) == (left, Leave(Refused), i);
    assert Loop(t, Ip, m.passes, 0, 0, -1) == End(left, Refused, i, 0, 0, t);
  }
}
