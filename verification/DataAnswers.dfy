/** Which contexts the setup of a data call gives back (sprd-ril/ril_data.c), told from the answers: those
    whose activation is refused, and at the end the one it gives up. */
module DataAnswers {
  import opened DataSetup
  import opened PdpTable

  predicate Succeeds(a: Activation, asFallback: bool) {
    a.contextSet && a.data.Connected? && (asFallback ==> a.bothTypes)
  }

  /** A fallback or second context that is tried beside context p, and refused. */
  function RefusedBeside(row: Row, p: int, hidden: set<int>, a: Activation, asFallback: bool): set<int> {
    var i := FirstFree(row, {p} + hidden);
    if i == -1 || Succeeds(a, asFallback) then {} else {i}
  }

  /** Context p has come up, and checkFallBack tries another. */
  function RefusedFallback(row: Row, p: int, pdpType: PdpType, f: Fallback): set<int> {
    if pdpType.Ip? || pdpType.Ipv6? || (pdpType.Ipv4v6? && !f.wanted) then {}
    else RefusedBeside(row, p, f.hidden, f.activation, pdpType.Ipv4v6?)
  }

  /** The matching PDN on an idle slot that reuseDefaultBearer tries, or -1. */
  function FirstTried(t: Tables, r: DefaultBearer, n: nat): (i: int)
    requires n <= MAX_PDP
    ensures i == -1 || (MAX_PDP - n <= i && IsTried(t, r, i))
    ensures forall j :: MAX_PDP - n <= j < (if i == -1 then MAX_PDP else i) ==> !IsTried(t, r, j)
  {
    if n == 0 then -1
    else if IsTried(t, r, MAX_PDP - n) then MAX_PDP - n
    else FirstTried(t, r, n - 1)
  }

  function RefusedBesideBearer(t: Tables, pdpType: PdpType, r: DefaultBearer): set<int> {
    var i := FirstTried(t, r, |t.row|);
    if !r.possible || i == -1 || !r.data.Connected? then {} else RefusedFallback(t.row, i, pdpType, r.fallback)
  }

  /** The fresh slot, unless it comes up, and what is tried beside it. */
  function RefusedFresh(row: Row, pdpType: PdpType, p: Pass): set<int> {
    var i := FirstFree(row, p.hidden);
    if i == -1 then {}
    else if Succeeds(p.activation, false) then
      if (pdpType.Ipv4v6? || pdpType.Ipv4PlusIpv6?) && p.lte then RefusedFallback(row, i, pdpType, p.fallback) else {}
    else if p.activation.contextSet && p.activation.data == Error(128)
            && p.split.contextSet && p.split.data.Connected? then
      {i} + RefusedBeside(row, i, p.split.hidden, p.split.second, false)
    else {i}
  }

  function RefusedInPass(t: Tables, pdpType: PdpType, canRetry: bool, p: Pass): set<int> {
    var (reuse, ret) := ReuseDefaultBearer(t, pdpType, p.reuse);
    RefusedBesideBearer(t, pdpType, p.reuse)
    + if ret > 0 || ret == -3 || (ret == -2 && canRetry) then {} else RefusedFresh(reuse.row, pdpType, p)
  }

  /** All passes from pass k on. */
  function RefusedAlong(t: Tables, pdpType: PdpType, m: Passes, k: nat, retried: nat, stale: int): set<int>
    requires retried <= MAX_RETRIES && k <= retried + |Unusable(t.row)|
    decreases MAX_RETRIES - retried + MAX_PDP - |Unusable(t.row)|
  {
    UnusableBound(t.row);
    var (u, next, index) := Attempt(t, pdpType, retried < MAX_RETRIES, stale, m[k]);
    UnusableBound(u.row);
    AttemptMarks(t, pdpType, retried < MAX_RETRIES, stale, m[k]);
    RefusedInPass(t, pdpType, retried < MAX_RETRIES, m[k])
    + match next
      case RetryCounted => RefusedAlong(u, pdpType, m, k + 1, retried + 1, index)
      case RetryMarked => RefusedAlong(u, pdpType, m, k + 1, retried, index)
      case Leave(_) => {}
  }

  function WithFallback(row: Row, i: int): set<int>
    requires IsIndex(i)
  {
    {i} + if row[i].secondary != -1 then {row[i].secondary - 1} else {}
  }

  /** At the end: after an error the context it ended with, and one that is listed as inactive, or was
      detached, with its fallback. */
  function GivenUp(e: End, listing: Listing): set<int> {
    if !IsIndex(e.index) then {}
    else if e.exit == Refused then {e.index}
    else if listing.Detached? || listing.Inactive? then WithFallback(e.tables.row, e.index)
    else {}
  }

  /** The contexts a setup gives back: those refused on the way, and those given up at the end. */
  function GivenBackBy(t: Tables, pdpType: PdpType, m: Modem): set<int> {
    RefusedAlong(t, pdpType, m.passes, 0, 0, -1) + GivenUp(Loop(t, pdpType, m.passes, 0, 0, -1), m.listing)
  }

  // ---------- that these are the ones ----------

  lemma SameChoice(row: Row, hidden: set<int>, other: Row, hidden': set<int>)
    requires forall i :: 0 <= i < MAX_PDP ==>
      (i !in hidden && IsFree(row, i) <==> i !in hidden' && IsFree(other, i))
    ensures FirstFree(row, hidden) == FirstFree(other, hidden')
  {
  }

  lemma ActivationGivesBack(t: Tables, i: int, p: int, a: Activation)
    requires IsIndex(i)
    ensures Activate(t, i, p, a).0.puts == t.puts + if Succeeds(a, p >= 0) then {} else {i}
  {
  }

  /** `row` is the row before context p was taken. */
  predicate NotFree(row: Row, after: Row, p: int) {
    IsIndex(p) && !IsFree(after, p) && forall j :: 0 <= j < MAX_PDP && j != p ==> after[j] == row[j]
  }

  lemma FallbackGivesBack(t: Tables, row: Row, pdpType: PdpType, p: int, f: Fallback)
    requires NotFree(row, t.row, p)
    ensures FallBack(t, pdpType, p, f).puts == t.puts + RefusedFallback(row, p, pdpType, f)
  {
    SameChoice(t.row, f.hidden, row, {p} + f.hidden);
    var i := FirstFree(t.row, f.hidden);
    if i != -1 {
      ActivationGivesBack(Take(t, i), i, if pdpType.Ipv4v6? then p else -1, f.activation);
    }
  }

  lemma TryGivesBack(t: Tables, pdpType: PdpType, i: int, soFar: int, r: DefaultBearer)
    requires IsIndex(i)
    ensures TryDefaultBearer(t, pdpType, i, soFar, r).0.puts ==
      t.puts + if r.data.Connected? then RefusedFallback(t.row, i, pdpType, r.fallback) else {}
  {
    if r.data.Connected? {
      FallbackGivesBack(t.(row := UpdateCid(Take(t, i).row, i + 1, 1)), t.row, pdpType, i, r.fallback);
    }
  }

  lemma {:induction false} BearerGivesBack(t: Tables, pdpType: PdpType, r: DefaultBearer, n: nat, soFar: int)
    requires n <= MAX_PDP
    ensures ReuseAmongLast(t, pdpType, r, n, soFar).0.puts ==
      t.puts + if FirstTried(t, r, n) == -1 || !r.data.Connected? then {}
               else RefusedFallback(t.row, FirstTried(t, r, n), pdpType, r.fallback)
    decreases n
  {
    if n > 0 {
      if IsTried(t, r, MAX_PDP - n) {
        TryGivesBack(t, pdpType, MAX_PDP - n, soFar, r);
      } else {
        BearerGivesBack(t, pdpType, r, n - 1, ShareableCid(t, r, MAX_PDP - n, soFar));
      }
    }
  }

  lemma SplitGivesBack(t: Tables, row: Row, i: int, s: Split)
    requires IsIndex(i) && forall j :: 0 <= j < MAX_PDP && j != i ==> t.row[j] == row[j]
    ensures SplitInTwo(t, i, s).0.puts ==
      t.puts + if s.contextSet && s.data.Connected? then RefusedBeside(row, i, s.hidden, s.second, false) else {}
  {
    if s.contextSet && s.data.Connected? {
      var marked := t.(row := UpdateCid(t.row, i + 1, 1));
      assert NotFree(row, marked.row, i);
      SameChoice(marked.row, s.hidden, row, {i} + s.hidden);
      var j := FirstFree(marked.row, s.hidden);
      if j != -1 {
        ActivationGivesBack(Take(marked, j), j, -1, s.second);
      }
    }
  }

  lemma FreshGivesBack(t: Tables, pdpType: PdpType, canRetry: bool, p: Pass)
    requires Paired(t.row)
    ensures TryFreshSlot(t, pdpType, canRetry, p).0.puts == t.puts + RefusedFresh(t.row, pdpType, p)
  {
    var i := FirstFree(t.row, p.hidden);
    if i != -1 {
      FreshActivation(t, i, p.activation);
      ActivationGivesBack(Take(t, i), i, -1, p.activation);
      var (tried, ret) := Activate(Take(t, i), i, -1, p.activation);
      if ret == SUCCESS {
        FallbackGivesBack(tried, t.row, pdpType, i, p.fallback);
      } else if ret == NEED_FALLBACK {
        SplitGivesBack(tried, t.row, i, p.split);
      }
    }
  }

  lemma ReuseGivesBack(t: Tables, pdpType: PdpType, r: DefaultBearer)
    requires Paired(t.row)
    ensures var reuse := ReuseDefaultBearer(t, pdpType, r).0;
      Paired(reuse.row) && reuse.puts == t.puts + RefusedBesideBearer(t, pdpType, r)
  {
    if r.possible {
      BearerGivesBack(t, pdpType, r, |t.row|, -1);
      ReuseKeeps(t, pdpType, r, |t.row|, -1);
    }
  }

  lemma PassGivesBack(t: Tables, pdpType: PdpType, canRetry: bool, stale: int, p: Pass)
    requires Paired(t.row)
    ensures Attempt(t, pdpType, canRetry, stale, p).0.puts == t.puts + RefusedInPass(t, pdpType, canRetry, p)
  {
    var (reuse, ret) := ReuseDefaultBearer(t, pdpType, p.reuse);
    ReuseGivesBack(t, pdpType, p.reuse);
    if !(ret > 0 || ret == -3 || (ret == -2 && canRetry)) {
      FreshGivesBack(reuse, pdpType, canRetry, p);
    }
  }

  lemma AlongStep(t: Tables, pdpType: PdpType, m: Passes, k: nat, retried: nat, stale: int,
                  u: Tables, next: Next, index: int)
    requires retried <= MAX_RETRIES && k <= retried + |Unusable(t.row)| && k < MAX_PASSES
    requires (u, next, index) == Attempt(t, pdpType, retried < MAX_RETRIES, stale, m[k])
    ensures next.RetryCounted? ==> retried < MAX_RETRIES && |Unusable(t.row)| <= |Unusable(u.row)|
    ensures next.RetryMarked? ==> |Unusable(t.row)| < |Unusable(u.row)|
    ensures RefusedAlong(t, pdpType, m, k, retried, stale) ==
      RefusedInPass(t, pdpType, retried < MAX_RETRIES, m[k])
      + match next
        case RetryCounted => RefusedAlong(u, pdpType, m, k + 1, retried + 1, index)
        case RetryMarked => RefusedAlong(u, pdpType, m, k + 1, retried, index)
        case Leave(_) => {}
  {
    AttemptMarks(t, pdpType, retried < MAX_RETRIES, stale, m[k]);
  }

  lemma PassOfSets(p: set<int>, here: set<int>, q: set<int>, further: set<int>)
    requires q == p + here
    ensures p + (here + further) == q + further && here + {} == here
  {
  }

  /** Pass k is about to begin; the loop ends as `end` says, and `all` is what has been given back with
      what will be. */
  ghost predicate Heading(t: Tables, pdpType: PdpType, m: Passes, k: nat, retried: nat, stale: int,
                          end: End, all: set<int>)
  {
    && Paired(t.row) && (stale == -1 || (IsIndex(stale) && t.row[stale].state == Idle))
    && retried <= MAX_RETRIES && k <= retried + |Unusable(t.row)|
    && Loop(t, pdpType, m, k, retried, stale) == end
    && t.puts + RefusedAlong(t, pdpType, m, k, retried, stale) == all
  }

  function RetriesLeft(t: Tables, retried: nat): int {
    MAX_RETRIES - retried + MAX_PDP - |Unusable(t.row)|
  }

  lemma PassOnTheWay(t: Tables, pdpType: PdpType, m: Passes, k: nat, retried: nat, stale: int,
                     end: End, all: set<int>)
    returns (u: Tables, next: Next, index: int, r: nat)
    requires Heading(t, pdpType, m, k, retried, stale, end, all)
    ensures next.Leave? ==> end.tables.puts == all
    ensures !next.Leave? ==>
      && Heading(u, pdpType, m, k + 1, r, index, end, all)
      && 0 <= RetriesLeft(u, r) < RetriesLeft(t, retried)
  {
    UnusableBound(t.row);
    var result := Attempt(t, pdpType, retried < MAX_RETRIES, stale, m[k]);
    u, next, index := result.0, result.1, result.2;
    UnusableBound(u.row);
    LoopStep(t, pdpType, m, k, retried, stale, u, next, index);
    AlongStep(t, pdpType, m, k, retried, stale, u, next, index);
    AttemptKeeps(t, pdpType, retried < MAX_RETRIES, stale, m[k]);
    PassGivesBack(t, pdpType, retried < MAX_RETRIES, stale, m[k]);
    r := if next == RetryCounted then retried + 1 else retried;
    var here := RefusedInPass(t, pdpType, retried < MAX_RETRIES, m[k]);
    PassOfSets(t.puts, here, u.puts, if next.Leave? then {} else RefusedAlong(u, pdpType, m, k + 1, r, index));
  }

  lemma {:induction false} EndOfTheWay(t: Tables, pdpType: PdpType, m: Passes, k: nat, retried: nat, stale: int,
                                       end: End, all: set<int>)
    requires Heading(t, pdpType, m, k, retried, stale, end, all)
    ensures end.tables.puts == all
    decreases RetriesLeft(t, retried)
  {
    var u, next, index, r := PassOnTheWay(t, pdpType, m, k, retried, stale, end, all);
    if !next.Leave? {
      EndOfTheWay(u, pdpType, m, k + 1, r, index, end, all);
    }
  }

  lemma LoopGivesBack(t: Tables, pdpType: PdpType, m: Passes)
    requires Paired(t.row)
    ensures Loop(t, pdpType, m, 0, 0, -1).tables.puts == t.puts + RefusedAlong(t, pdpType, m, 0, 0, -1)
  {
    EndOfTheWay(t, pdpType, m, 0, 0, -1, Loop(t, pdpType, m, 0, 0, -1),
                t.puts + RefusedAlong(t, pdpType, m, 0, 0, -1));
  }

  /** What becomes of the tables at the end of the loop. */
  function AfterEnd(e: End, listing: Listing): Tables
    requires e.exit != Refused ==> IsIndex(e.index)
  {
    if e.exit == Refused then Refuse(e.tables, e.index) else Report(Finish(e.tables, e.index), e.index, listing)
  }

  lemma RefuseGivesBack(t: Tables, i: int)
    requires Paired(t.row) && (IsIndex(i) ==> t.row[i].state == Idle)
    ensures Refuse(t, i).puts == t.puts + if IsIndex(i) then {i} else {}
  {
    if IsIndex(i) {
      assert t.row[i].secondary == -1;
    }
  }

  lemma ReportGivesBack(t: Tables, i: int, listing: Listing)
    requires Paired(t.row) && IsIndex(i)
    ensures Report(t, i, listing).puts ==
      t.puts + if listing.Detached? || listing.Inactive? then WithFallback(t.row, i) else {}
  {
    PutPair(t, i);
  }

  lemma EndGivesBack(e: End, listing: Listing)
    requires Paired(e.tables.row) && (e.exit != Refused ==> IsIndex(e.index))
    requires e.exit == Refused && IsIndex(e.index) ==> e.tables.row[e.index].state == Idle
    ensures AfterEnd(e, listing).puts == e.tables.puts + GivenUp(e, listing)
  {
    if e.exit == Refused {
      RefuseGivesBack(e.tables, e.index);
    } else {
      GivenBackKeeps(e.tables.row);
      ReportGivesBack(Finish(e.tables, e.index), e.index, listing);
    }
  }

  lemma SetupIsEnd(t: Tables, pdpType: PdpType, m: Modem)
    requires Paired(t.row)
    ensures var e := Loop(t, pdpType, m.passes, 0, 0, -1);
      && Paired(e.tables.row) && (e.exit != Refused ==> IsIndex(e.index))
      && (e.exit == Refused && IsIndex(e.index) ==> e.tables.row[e.index].state == Idle)
      && Setup(t, pdpType, m).tables == AfterEnd(e, m.listing)
  {
    LoopKeeps(t, pdpType, m.passes);
  }

  lemma Joined(p: set<int>, a: set<int>, b: set<int>)
    ensures p + a + b == p + (a + b)
  {
  }

  /** The contexts a setup gives back are exactly those. */
  lemma SetupGivesBack(t: Tables, pdpType: PdpType, m: Modem)
    requires Paired(t.row)
    ensures Setup(t, pdpType, m).tables.puts == t.puts + GivenBackBy(t, pdpType, m)
  {
    var e := Loop(t, pdpType, m.passes, 0, 0, -1);
    SetupIsEnd(t, pdpType, m);
    LoopGivesBack(t, pdpType, m.passes);
    EndGivesBack(e, m.listing);
    Joined(t.puts, RefusedAlong(t, pdpType, m.passes, 0, 0, -1), GivenUp(e, m.listing));
  }
}
