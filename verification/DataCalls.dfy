/** Data-call setup and teardown in place (sprd-ril/ril_data.c), on the slots of all SIMs and the
    open-channel records they share. What the modem, the system properties and the list of active PDNs
    answer is an argument of each method. */
module DataCalls {
  import opened DataSetup
  import opened DataUsers
  import opened PdpTable

  type OpenCid = c: int | -1 <= c <= MAX_PDP

  /** The slots getPDP passes over: beyond the number of contexts, or taken by an active PDN. */
  function Hidden(maxNum: nat, skipPdn: bool, pdnCid: seq<int>): set<int>
    requires |pdnCid| == MAX_PDP
  {
    set i | 0 <= i < MAX_PDP && (i >= maxNum || (skipPdn && pdnCid[i] == i + 1))
  }

  /** At most the row of one SIM differs. */
  predicate OnlyRow(sim: nat, before: seq<Row>, after: seq<Row>) {
    sim < |before| == |after| && after == before[sim := after[sim]]
  }

  class DataService {
    var slots: seq<Row>
    var channels: Channels
    var openchannelCid: OpenCid
    /** The contexts given back by the present request. */
    ghost var puts: set<int>
    ghost var users: seq<Users>

    constructor (simCount: nat)
      ensures View() == Fresh(simCount) && openchannelCid == -1
    {
      slots := seq(simCount, _ => seq(MAX_PDP, _ => FREE_SLOT));
      channels := seq(MAX_PDP, _ => CLOSED_CHANNEL);
      openchannelCid := -1;
      puts := {};
      users := seq(simCount, _ => seq(MAX_PDP, _ => 0));
    }

    ghost function View(): Service
      reads this
    {
      Service(slots, channels, users)
    }

    ghost function At(sim: nat): Tables
      requires sim < |slots|
      reads this
    {
      Tables(slots[sim], channels, puts)
    }

    // ---------- table operations ----------

    /** getPDP: the first free slot that is not passed over becomes busy. */
    method GetPdp(sim: nat, maxNum: nat, skipPdn: bool, pdnCid: seq<int>) returns (r: int)
      requires sim < |slots| && |pdnCid| == MAX_PDP && maxNum <= MAX_PDP
      modifies this`slots
      ensures r == FirstFree(old(slots[sim]), Hidden(maxNum, skipPdn, pdnCid))
      ensures slots == if r == -1 then old(slots) else old(slots)[sim := Occupy(old(slots[sim]), r)]
    {
      r := -1;
      var i := 0;
      while i < maxNum
        invariant 0 <= i <= maxNum
        invariant slots == old(slots)
        invariant forall j :: 0 <= j < i ==>
          j in Hidden(maxNum, skipPdn, pdnCid) || !IsFree(slots[sim], j)
      {
        if skipPdn && pdnCid[i] == i + 1 {
          i := i + 1;
          continue;
        }
        if slots[sim][i].state == Idle && slots[sim][i].cid == -1 {
          assert i !in Hidden(maxNum, skipPdn, pdnCid) && IsFree(slots[sim], i);
          slots := slots[sim := slots[sim][i := slots[sim][i].(state := Busy)]];
          return i;
        }
        i := i + 1;
      }
    }

    /** A call of getPDP when the slots it passes over are `hidden`. */
    method GetPdpBut(sim: nat, hidden: set<int>) returns (r: int)
      requires sim < |slots|
      modifies this`slots
      ensures r == FirstFree(old(slots[sim]), hidden)
      ensures slots == if r == -1 then old(slots) else old(slots)[sim := Occupy(old(slots[sim]), r)]
    {
      var pdnCid := seq(MAX_PDP, i => if i in hidden then i + 1 else 0);
      r := GetPdp(sim, MAX_PDP, true, pdnCid);
      assert forall i :: 0 <= i < MAX_PDP ==> (i in Hidden(MAX_PDP, true, pdnCid) <==> i in hidden);
    }

    method PutPdp(sim: nat, i: int)
      requires sim < |slots|
      modifies this`slots, this`channels, this`puts
      ensures OnlyRow(sim, old(slots), slots) && At(sim) == PutAt(old(At(sim)), i)
    {
      if i < 0 || i >= MAX_PDP {
        assert slots[sim := slots[sim]] == slots;
        return;
      }
      var row := slots[sim];
      if row[i].state == Busy {
        row := row[i := row[i].(state := Idle)];
      }
      if row[i].secondary > 0 && row[i].secondary <= MAX_PDP {
        var j := row[i].secondary - 1;
        row := row[j := row[j].(secondary := -1)];
      }
      row := row[i := row[i].(secondary := -1, cid := -1, primary := false)];
      assert row == Put(slots[sim], i);
      slots := slots[sim := row];
      if channels[i].count != 0 {
        channels := channels[i := channels[i].(count := 0)];
      }
      channels := channels[i := channels[i].(pdpState := false)];
      puts := puts + {i};
    }

    method PutUnusablePdpCid(sim: nat)
      requires sim < |slots|
      modifies this`slots
      ensures slots == old(slots)[sim := GivenBack(old(slots[sim]))]
    {
      ghost var row := slots[sim];
      for i := 0 to MAX_PDP
        invariant OnlyRow(sim, old(slots), slots)
        invariant forall j :: 0 <= j < MAX_PDP ==>
          slots[sim][j] == if j < i then GivenBack(row)[j] else row[j]
      {
        if slots[sim][i].cid == UNUSABLE_CID {
          slots := slots[sim := slots[sim][i := slots[sim][i].(cid := -1)]];
        }
      }
      assert slots[sim] == GivenBack(row);
    }

    /** onModemReset_Data: whatever the tables held, they are as at start-up again. */
    method OnModemReset()
      modifies this
      ensures View() == Fresh(old(|slots|)) && openchannelCid == -1
    {
      openchannelCid := -1;
      for s := 0 to |slots|
        invariant |slots| == old(|slots|) && openchannelCid == -1
        invariant forall s', i :: 0 <= s' < s && 0 <= i < MAX_PDP ==> slots[s'][i] == FREE_SLOT
      {
        for i := 0 to MAX_PDP
          invariant |slots| == old(|slots|) && openchannelCid == -1
          invariant forall s', j :: 0 <= s' < s && 0 <= j < MAX_PDP ==> slots[s'][j] == FREE_SLOT
          invariant forall j :: 0 <= j < i ==> slots[s][j] == FREE_SLOT
        {
          PutPdp(s, i);
        }
      }
      for i := 0 to MAX_PDP
        invariant forall j :: 0 <= j < i ==> channels[j] == CLOSED_CHANNEL
        invariant |slots| == old(|slots|) && openchannelCid == -1
        invariant forall s, j :: 0 <= s < |slots| && 0 <= j < MAX_PDP ==> slots[s][j] == FREE_SLOT
      {
        channels := channels[i := CLOSED_CHANNEL];
      }
      users := seq(|slots|, _ => seq(MAX_PDP, _ => 0));
      assert forall s :: 0 <= s < |slots| ==> slots[s] == seq(MAX_PDP, _ => FREE_SLOT);
    }

    // ---------- activation ----------

    method ActivateCid(sim: nat, i: int, p: int, a: Activation) returns (ret: int)
      requires sim < |slots| && IsIndex(i)
      modifies this`slots, this`channels, this`puts
      ensures OnlyRow(sim, old(slots), slots)
      ensures (At(sim), ret) == Activate(old(At(sim)), i, p, a)
    {
      if !a.contextSet {
        PutPdp(sim, i);
        return FAILED;
      }
      ret := Code(a.data);
      if ret != SUCCESS {
        PutPdp(sim, i);
        return;
      }
      if p >= 0 {
        if !a.bothTypes {
          PutPdp(sim, i);
          ret := FALLBACK_FAILED;
        } else {
          slots := slots[sim := SetMapping(slots[sim], p, i)];
        }
      } else {
        slots := slots[sim := UpdateCid(slots[sim], i + 1, 1)];
      }
    }

    /** checkFallBack after context p has come up: perhaps one more context, perhaps paired with p. */
    method CheckFallBack(sim: nat, pdpType: PdpType, p: int, f: Fallback)
      requires sim < |slots|
      modifies this`slots, this`channels, this`puts
      ensures OnlyRow(sim, old(slots), slots)
      ensures At(sim) == FallBack(old(At(sim)), pdpType, p, f)
    {
      assert slots[sim := slots[sim]] == slots;
      var wanted := false;
      if pdpType.Ipv4PlusIpv6? {
        wanted := true;
      } else if pdpType.Ipv4v6? {
        wanted := f.wanted;
      }
      if !wanted {
        return;
      }
      var i := GetPdpBut(sim, f.hidden);
      if i < 0 || slots[sim][i].cid >= 0 {
        return;
      }
      var _ := ActivateCid(sim, i, if pdpType.Ipv4v6? then p else -1, f.activation);
    }

    /** doIPV4_IPV6_Fallback. The IPv4 slot has been given back already; it is marked active and stays
        idle. */
    method SplitIpv4Ipv6(sim: nat, index: int, s: Split) returns (ok: bool)
      requires sim < |slots| && IsIndex(index)
      modifies this`slots, this`channels, this`puts
      ensures OnlyRow(sim, old(slots), slots)
      ensures (At(sim), ok) == SplitInTwo(old(At(sim)), index, s)
    {
      assert slots[sim := slots[sim]] == slots;
      if !s.contextSet {
        return false;
      }
      var ret := Code(s.data);
      if ret != SUCCESS {
        return false;
      }
      slots := slots[sim := UpdateCid(slots[sim], index + 1, 1)];
      var second := GetPdpBut(sim, s.hidden);
      if second < 0 || slots[sim][second].cid >= 0 {
        PutPdp(sim, second);
      } else {
        ret := ActivateCid(sim, second, -1, s.second);
      }
      ok := true;
    }

    /** reuseDefaultBearer: a cid to use, -1 for none, -2 to retry, -3 to give up. */
    method ReuseBearer(sim: nat, pdpType: PdpType, r: DefaultBearer) returns (ret: int)
      requires sim < |slots|
      modifies this`slots, this`channels, this`puts, this`openchannelCid
      ensures OnlyRow(sim, old(slots), slots)
      ensures (At(sim), ret) == ReuseDefaultBearer(old(At(sim)), pdpType, r)
      ensures ret <= 0 ==> openchannelCid == old(openchannelCid)
    {
      ret := -1;
      assert slots[sim := slots[sim]] == slots;
      if !r.possible {
        return;
      }
      ghost var t := At(sim);
      var i := 0;
      while i < MAX_PDP
        invariant 0 <= i <= MAX_PDP
        invariant slots == old(slots) && At(sim) == t && openchannelCid == old(openchannelCid)
        invariant ReuseAmongLast(t, pdpType, r, |t.row|, -1) == ReuseAmongLast(t, pdpType, r, MAX_PDP - i, ret)
      {
        if i in r.matching {
          if slots[sim][i].state == Idle {
            ret := BringUpDefaultBearer(sim, pdpType, i, ret, r);
            return;
          } else if channels[i].state != Close {
            ret := i + 1;
          }
        }
        i := i + 1;
      }
    }

    /** The one attempt reuseDefaultBearer makes, on the first matching PDN whose slot is idle. */
    method BringUpDefaultBearer(sim: nat, pdpType: PdpType, i: int, soFar: int, r: DefaultBearer)
      returns (ret: int)
      requires sim < |slots| && IsIndex(i) && slots[sim][i].state == Idle
      modifies this`slots, this`channels, this`puts, this`openchannelCid
      ensures OnlyRow(sim, old(slots), slots)
      ensures (At(sim), ret) == TryDefaultBearer(old(At(sim)), pdpType, i, soFar, r)
      ensures !r.data.Connected? ==> openchannelCid == old(openchannelCid)
    {
      ret := soFar;
      slots := slots[sim := Occupy(slots[sim], i)];
      var answer := Code(r.data);
      if answer == SUCCESS {
        slots := slots[sim := UpdateCid(slots[sim], i + 1, 1)];
        openchannelCid := i + 1;
        ret := i + 1;
        CheckFallBack(sim, pdpType, i, r.fallback);
      } else if answer == NEED_ANOTHER_CID {
        slots := slots[sim := UpdateCid(slots[sim], i + 1, -1)];
        slots := slots[sim := PutByIndex(slots[sim], i)];
      } else if answer == NEED_RETRY {
        slots := slots[sim := PutByIndex(slots[sim], i)];
        ret := -2;
      } else {
        slots := slots[sim := PutByIndex(slots[sim], i)];
        ret := -3;
      }
    }

    // ---------- setup ----------

    /** The rest of a pass, when no default bearer is reused. */
    method AttemptFreshCid(sim: nat, pdpType: PdpType, canRetry: bool, p: Pass) returns (next: Next, index: int)
      requires sim < |slots|
      modifies this`slots, this`channels, this`puts
      ensures OnlyRow(sim, old(slots), slots)
      ensures (At(sim), next, index) == TryFreshSlot(old(At(sim)), pdpType, canRetry, p)
    {
      assert slots[sim := slots[sim]] == slots;
      index := GetPdpBut(sim, p.hidden);
      if index < 0 || slots[sim][index].cid >= 0 {
        return Leave(Refused), index;
      }
      var ret := ActivateCid(sim, index, -1, p.activation);
      if ret == NEED_RETRY {
        next := if canRetry then RetryCounted else Leave(RetriesExhausted);
      } else if ret == NEED_FALLBACK {
        var ok := SplitIpv4Ipv6(sim, index, p.split);
        next := Leave(if ok then SplitIntoTwo else Refused);
      } else if ret == NEED_ANOTHER_CID {
        slots := slots[sim := UpdateCid(slots[sim], index + 1, -1)];
        next := RetryMarked;
      } else if ret == SUCCESS {
        if (pdpType.Ipv4v6? || pdpType.Ipv4PlusIpv6?) && p.lte {
          CheckFallBack(sim, pdpType, index, p.fallback);
        }
        next := Leave(Activated);
      } else {
        next := Leave(Refused);
      }
    }

    /** One pass of requestSetupDataCall from the label RETRY. */
    method AttemptPass(sim: nat, pdpType: PdpType, canRetry: bool, stale: int, p: Pass)
      returns (next: Next, index: int)
      requires sim < |slots|
      modifies this`slots, this`channels, this`puts, this`openchannelCid
      ensures OnlyRow(sim, old(slots), slots)
      ensures (At(sim), next, index) == Attempt(old(At(sim)), pdpType, canRetry, stale, p)
      ensures next != Leave(Reused) ==> openchannelCid == old(openchannelCid)
    {
      var ret := ReuseBearer(sim, pdpType, p.reuse);
      if ret > 0 {
        return Leave(Reused), ret - 1;
      } else if ret == -3 {
        return Leave(Refused), stale;
      } else if ret == -2 {
        if canRetry {
          return RetryCounted, stale;
        }
      }
      next, index := AttemptFreshCid(sim, pdpType, canRetry, p);
    }

    /** Pass k is about to begin, and the retry loop ends as `end` says. */
    ghost predicate Underway(sim: nat, pdpType: PdpType, m: Passes, k: nat, retried: nat, stale: int, end: End)
      reads this
    {
      && sim < |slots| && retried <= MAX_RETRIES && k <= retried + |Unusable(slots[sim])|
      && Loop(At(sim), pdpType, m, k, retried, stale) == end
    }

    ghost function RetriesLeft(sim: nat, retried: nat): int
      requires sim < |slots|
      reads this
    {
      MAX_RETRIES - retried + MAX_PDP - |Unusable(slots[sim])|
    }

    /** A pass as a step of the retry loop. */
    method RetryPass(sim: nat, pdpType: PdpType, m: Passes, k: nat, nRetryTimes: nat, stale: int, ghost end: End)
      returns (next: Next, index: int, retried: nat)
      requires Underway(sim, pdpType, m, k, nRetryTimes, stale, end)
      modifies this`slots, this`channels, this`puts, this`openchannelCid
      ensures OnlyRow(sim, old(slots), slots)
      ensures !next.Leave? ==> Underway(sim, pdpType, m, k + 1, retried, index, end)
      ensures !next.Leave? ==> 0 <= RetriesLeft(sim, retried) < old(RetriesLeft(sim, nRetryTimes))
      ensures next.Leave? ==> end.exit == next.exit && end.tables == At(sim) && end.index == index
      ensures next != Leave(Reused) ==> openchannelCid == old(openchannelCid)
    {
      ghost var before := At(sim);
      UnusableBound(slots[sim]);
      next, index := AttemptPass(sim, pdpType, nRetryTimes < MAX_RETRIES, stale, m[k]);
      LoopStep(before, pdpType, m, k, nRetryTimes, stale, At(sim), next, index);
      UnusableBound(slots[sim]);
      retried := if next == RetryCounted then nRetryTimes + 1 else nRetryTimes;
    }

    /** requestSetupDataCall up to the labels `done` and `error`. */
    method SetupLoop(sim: nat, pdpType: PdpType, m: Passes) returns (exit: Exit, index: int)
      requires sim < |slots| && Paired(slots[sim])
      modifies this`slots, this`channels, this`puts, this`openchannelCid
      ensures OnlyRow(sim, old(slots), slots)
      ensures var e := Loop(old(At(sim)), pdpType, m, 0, 0, -1);
        e.tables == At(sim) && e.exit == exit && e.index == index
      ensures exit != Reused ==> openchannelCid == old(openchannelCid)
    {
      ghost var end := Loop(At(sim), pdpType, m, 0, 0, -1);
      var nRetryTimes, k := 0, 0;
      index := -1;
      assert slots[sim := slots[sim]] == slots;
      while true
        invariant OnlyRow(sim, old(slots), slots) && openchannelCid == old(openchannelCid)
        invariant k >= 0 && nRetryTimes >= 0 && Underway(sim, pdpType, m, k, nRetryTimes, index, end)
        decreases RetriesLeft(sim, nRetryTimes)
      {
        var next: Next;
        next, index, nRetryTimes := RetryPass(sim, pdpType, m, k, nRetryTimes, index, end);
        if next.Leave? {
          exit := next.exit;
          return;
        }
        k := k + 1;
      }
    }

    /** The label `done`: the context has one more use. */
    method Done(sim: nat, index: int)
      requires sim < |slots| && IsIndex(index)
      modifies this`slots, this`channels, this`openchannelCid
      ensures OnlyRow(sim, old(slots), slots) && openchannelCid == index + 1
      ensures At(sim) == Finish(old(At(sim)), index)
    {
      PutUnusablePdpCid(sim);
      openchannelCid := index + 1;
      channels := channels[index := channels[index].(count := channels[index].count + 1)];
      channels := channels[index := channels[index].(pdpState := true)];
    }

    /** The label `error`: what is left of the slot tried last is put, with its fallback. */
    method RefuseSetup(sim: nat, index: int)
      requires sim < |slots| && index < MAX_PDP
      modifies this`slots, this`channels, this`puts
      ensures OnlyRow(sim, old(slots), slots)
      ensures At(sim) == Refuse(old(At(sim)), index)
    {
      if index >= 0 {
        PutPdp(sim, slots[sim][index].secondary - 1);
        PutPdp(sim, index);
        channels := channels[index := channels[index].(pdpState := true)];
      }
      PutUnusablePdpCid(sim);
    }

    /** requestOrSendDataCallList for a finished setup: a context that is listed as inactive, or was
        detached meanwhile, is put together with its fallback. */
    method ReportDataCall(sim: nat, index: int, listing: Listing) returns (success: bool)
      requires sim < |slots| && IsIndex(index)
      modifies this`slots, this`channels, this`puts
      ensures OnlyRow(sim, old(slots), slots)
      ensures At(sim) == Report(old(At(sim)), index, listing) && success == listing.Active?
    {
      assert slots[sim := slots[sim]] == slots;
      success := false;
      match listing {
        case Unreadable | Unlisted =>
        case Active => success := true;
        case Detached | Inactive =>
          PutPdp(sim, slots[sim][index].secondary - 1);
          PutPdp(sim, index);
      }
    }

    /** requestSetupDataCall up to the reply. */
    method SetUpDataCall(sim: nat, pdpType: PdpType, m: Modem) returns (exit: Exit, index: int, success: bool)
      requires sim < |slots| && Paired(slots[sim])
      modifies this`slots, this`channels, this`puts, this`openchannelCid
      ensures OnlyRow(sim, old(slots), slots)
      ensures var o := Setup(Tables(old(slots[sim]), old(channels), {}), pdpType, m);
        && o.tables == At(sim) && o.exit == exit && o.index == index && o.success == success
      ensures exit != Refused ==> IsIndex(index) && openchannelCid == index + 1
      ensures exit == Refused ==> openchannelCid == old(openchannelCid)
    {
      puts := {};
      LoopIndex(At(sim), pdpType, m.passes);
      exit, index := SetupLoop(sim, pdpType, m.passes);
      if exit == Refused {
        RefuseSetup(sim, index);
        success := false;
      } else {
        Done(sim, index);
        success := ReportDataCall(sim, index, m.listing);
      }
    }

    /** requestSetupDataCall for the framework. */
    method RequestSetupDataCall(sim: nat, pdpType: PdpType, m: Modem) returns (reply: Reply)
      requires Valid(View()) && sim < |slots|
      modifies this
      ensures View() == Step(old(View()), SetUp(sim, pdpType, m))
      ensures reply == ReplyTo(old(View()), SetUp(sim, pdpType, m))
    {
      var exit, index, success := SetUpDataCall(sim, pdpType, m);
      reply := if success then Success else Failure;
      users := users[sim := UsersAfter(users[sim], EffectOf(old(View()), SetUp(sim, pdpType, m)))];
    }

    /** The scan for a busy context whose PDN matches. */
    method FindBusy(sim: nat, matching: set<int>) returns (r: int)
      requires sim < |slots|
      ensures r == BusyAmongLast(slots[sim], matching, |slots[sim]|)
    {
      r := -1;
      for i := 0 to MAX_PDP
        invariant r == -1
        invariant BusyAmongLast(slots[sim], matching, |slots[sim]|) == BusyAmongLast(slots[sim], matching, MAX_PDP - i)
      {
        if i in matching && slots[sim][i].state == Busy {
          return i;
        }
      }
    }

    /** requestSetupDataConnection: a BIP channel shares a busy context or has one set up. */
    method RequestSetupDataConnection(sim: nat, pdpType: PdpType, dataAllowed: bool, matching: set<int>, m: Modem)
      returns (cid: int)
      requires Valid(View()) && sim < |slots|
      modifies this
      ensures var op := OpenChannel(sim, pdpType, dataAllowed, matching, m);
        && View() == Step(old(View()), op)
        && (cid > 0 <==> ReplyTo(old(View()), op) == Success)
        && (EffectOf(old(View()), op).gained != -1 ==> cid == EffectOf(old(View()), op).gained + 1)
      ensures cid > 0 ==> cid <= MAX_PDP && channels[cid - 1].cid == cid && !channels[cid - 1].state.Close?
    {
      ghost var before := View();
      puts := {};
      cid := ShareOrSetUp(sim, pdpType, dataAllowed, matching, m);
      ghost var op := OpenChannel(sim, pdpType, dataAllowed, matching, m);
      users := users[sim := UsersAfter(users[sim], EffectOf(before, op))];
    }

    method ShareOrSetUp(sim: nat, pdpType: PdpType, dataAllowed: bool, matching: set<int>, m: Modem)
      returns (cid: int)
      requires sim < |slots| && Paired(slots[sim]) && puts == {}
      modifies this`slots, this`channels, this`puts, this`openchannelCid
      ensures OnlyRow(sim, old(slots), slots)
      ensures var e := OpenEffect(old(At(sim)), pdpType, dataAllowed, matching, m);
        At(sim) == e.tables && (cid > 0 <==> e.reply == Success) && (e.gained != -1 ==> cid == e.gained + 1)
      ensures cid > 0 ==> cid <= MAX_PDP && channels[cid - 1].cid == cid && !channels[cid - 1].state.Close?
    {
      assert slots[sim := slots[sim]] == slots;
      if !dataAllowed {
        return -1;
      }
      openchannelCid := -1;
      var shared := FindBusy(sim, matching);
      if shared >= 0 {
        channels := channels[shared := channels[shared].(cid := shared + 1)];
        channels := channels[shared := channels[shared].(state := Reuse)];
        channels := channels[shared := channels[shared].(count := channels[shared].count + 1)];
        return shared + 1;
      }
      cid := SetUpForChannel(sim, pdpType, matching, m);
    }

    /** The context a channel is set up on, or -1; its channel is open then. */
    method SetUpForChannel(sim: nat, pdpType: PdpType, ghost matching: set<int>, m: Modem) returns (cid: int)
      requires sim < |slots| && Paired(slots[sim]) && puts == {} && openchannelCid == -1
      requires BusyAmongLast(slots[sim], matching, |slots[sim]|) == -1
      modifies this`slots, this`channels, this`puts, this`openchannelCid
      ensures OnlyRow(sim, old(slots), slots)
      ensures var e := OpenEffect(old(At(sim)), pdpType, true, matching, m);
        At(sim) == e.tables && (cid > 0 <==> e.reply == Success) && (e.gained != -1 ==> cid == e.gained + 1)
      ensures cid > 0 ==> cid <= MAX_PDP && channels[cid - 1].cid == cid && !channels[cid - 1].state.Close?
    {
      var exit, index, success := SetUpDataCall(sim, pdpType, m);
      if openchannelCid > 0 {
        var i := openchannelCid - 1;
        channels := channels[i := channels[i].(cid := openchannelCid, state := Open)];
      }
      cid := openchannelCid;
    }

    /** deactivateDataConnection up to the reply. */
    method DeactivateDataConnection(sim: nat, cid: int) returns (reply: Reply)
      requires Valid(View()) && sim < |slots|
      modifies this
      ensures View() == Step(old(View()), Deactivate(sim, cid))
      ensures reply == ReplyTo(old(View()), Deactivate(sim, cid))
    {
      ghost var before := View();
      puts := {};
      reply := TearDown(sim, cid);
      users := users[sim := UsersAfter(users[sim], EffectOf(before, Deactivate(sim, cid)))];
    }

    method TearDown(sim: nat, cid: int) returns (reply: Reply)
      requires sim < |slots|
      modifies this`slots, this`channels, this`puts
      ensures OnlyRow(sim, old(slots), slots)
      ensures (At(sim), reply) == AfterDeactivation(old(At(sim)), cid)
    {
      assert slots[sim := slots[sim]] == slots;
      if cid < 1 {
        return Failure;
      }
      if cid > MAX_PDP {
        return Fault;
      }
      var i := cid - 1;
      if channels[i].count > 0 {
        channels := channels[i := channels[i].(count := channels[i].count - 1)];
      }
      if slots[sim][i].state == Idle {
        return Success;
      }
      if channels[i].count != 0 {
        return Failure;
      }
      var secondary := slots[sim][i].secondary;
      PutPdp(sim, secondary - 1);
      PutPdp(sim, i);
      reply := Success;
    }

    method CloseAndTearDown(sim: nat, cid: int) returns (ghost reply: Reply)
      requires sim < |slots|
      modifies this`slots, this`channels, this`puts
      ensures OnlyRow(sim, old(slots), slots)
      ensures (At(sim), reply) == AfterClosing(old(At(sim)), cid)
    {
      assert slots[sim := slots[sim]] == slots;
      reply := if cid > MAX_PDP then Fault else Success;
      if 0 < cid <= MAX_PDP {
        channels := channels[cid - 1 := channels[cid - 1].(cid := -1)];
        channels := channels[cid - 1 := channels[cid - 1].(state := Close)];
        assert channels == MarkChannel(old(channels), cid - 1, Close);
        reply := TearDown(sim, cid);
      }
    }

    /** requestDeactiveDataConnection: the channel is closed, then its context deactivated. */
    method RequestDeactiveDataConnection(sim: nat, cid: int)
      requires Valid(View()) && sim < |slots|
      modifies this
      ensures View() == Step(old(View()), CloseChannel(sim, cid))
    {
      ghost var before := View();
      puts := {};
      ghost var reply := CloseAndTearDown(sim, cid);
      users := users[sim := UsersAfter(users[sim], EffectOf(before, CloseChannel(sim, cid)))];
    }
  }
}
