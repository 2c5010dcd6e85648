/** Who uses the contexts of all SIMs (sprd-ril/ril_data.c): what each request does to the use counts,
    against the users there really are.

    A user is a setup the framework was told of as a success, or a BIP channel that was given a
    context id. It leaves by deactivating, and is lost when its SIM's context is given back. */
module DataUsers {
  import opened DataSetup
  import opened PdpTable

  datatype Reply = Success | Failure | Fault

  type Users = u: seq<nat> | |u| == MAX_PDP witness seq(MAX_PDP, _ => 0)

  /** A row of slots and of users for each SIM; the open-channel records are the same for all. */
  datatype Service = Service(rows: seq<Row>, channels: Channels, users: seq<Users>)

  datatype Op =
    | SetUp(sim: nat, pdpType: PdpType, modem: Modem)
    | OpenChannel(sim: nat, pdpType: PdpType, allowed: bool, matching: set<int>, modem: Modem)
    | Deactivate(sim: nat, cid: int)
    | CloseChannel(sim: nat, cid: int)
    | Reset

  function Fresh(sims: nat): Service {
    Service(seq(sims, _ => seq(MAX_PDP, _ => FREE_SLOT)), seq(MAX_PDP, _ => CLOSED_CHANNEL),
            seq(sims, _ => seq(MAX_PDP, _ => 0)))
  }

  predicate Valid(s: Service) {
    |s.users| == |s.rows| && forall k :: 0 <= k < |s.rows| ==> Paired(s.rows[k])
  }

  // ---------- the requests ----------

  /** deactivateDataConnection up to the reply. A cid beyond the arrays is a fault. */
  function AfterDeactivation(t: Tables, cid: int): (Tables, Reply) {
    if cid < 1 then (t, Failure)
    else if cid > MAX_PDP then (t, Fault)
    else
      var i := cid - 1;
      var n := t.channels[i].count;
      var u := if n > 0 then t.(channels := t.channels[i := t.channels[i].(count := n - 1)]) else t;
      if t.row[i].state == Idle then (u, Success)
      else if u.channels[i].count != 0 then (u, Failure)
      else (PutAt(PutAt(u, t.row[i].secondary - 1), i), Success)
  }

  /** The first busy context among the last n whose PDN matches, or -1. */
  function BusyAmongLast(row: Row, matching: set<int>, n: nat): (r: int)
    requires n <= MAX_PDP
    ensures r == -1 || (MAX_PDP - n <= r && IsBusy(row, r) && r in matching)
    ensures forall i :: MAX_PDP - n <= i < (if r == -1 then MAX_PDP else r) ==> i !in matching || !IsBusy(row, i)
  {
    if n == 0 then -1
    else if MAX_PDP - n in matching && row[MAX_PDP - n].state == Busy then MAX_PDP - n
    else BusyAmongLast(row, matching, n - 1)
  }

  function MarkChannel(channels: Channels, i: int, state: ChannelState): Channels
    requires IsIndex(i)
  {
    channels[i := channels[i].(cid := if state.Close? then -1 else i + 1, state := state)]
  }

  /** What a request does to its SIM's tables; the context it adds a user to, the one it counts one
      more use of, and the one it takes a use from (-1 for none). */
  datatype Effect = Effect(tables: Tables, gained: int, counted: int, left: int, reply: Reply)

  function SetUpEffect(t: Tables, pdpType: PdpType, m: Modem): Effect
    requires Paired(t.row)
  {
    var o := Setup(t, pdpType, m);
    Effect(o.tables, if o.success then o.index else -1, if o.attached then o.index else -1, -1,
           if o.success then Success else Failure)
  }

  /** requestSetupDataConnection: a BIP channel shares a busy context or has one set up. */
  function OpenEffect(t: Tables, pdpType: PdpType, allowed: bool, matching: set<int>, m: Modem): Effect
    requires Paired(t.row)
  {
    var i := BusyAmongLast(t.row, matching, |t.row|);
    if !allowed then Effect(t, -1, -1, -1, Failure)
    else if i != -1 then
      var c := MarkChannel(t.channels, i, Reuse);
      Effect(t.(channels := c[i := c[i].(count := c[i].count + 1)]), i, i, -1, Success)
    else
      SetupKeeps(t, pdpType, m);
      var o := Setup(t, pdpType, m);
      if o.exit == Refused then Effect(o.tables, -1, -1, -1, Failure)
      else
        var user := if o.attached then o.index else -1;
        Effect(o.tables.(channels := MarkChannel(o.tables.channels, o.index, Open)), user, user, -1, Success)
  }

  /** requestDeactiveDataConnection: the channel is closed, then its context deactivated. */
  function AfterClosing(t: Tables, cid: int): (Tables, Reply) {
    if cid < 1 then (t, Success)
    else if cid > MAX_PDP then (t, Fault)
    else AfterDeactivation(t.(channels := MarkChannel(t.channels, cid - 1, Close)), cid)
  }

  function Perform(t: Tables, op: Op): Effect
    requires Paired(t.row) && !op.Reset?
  {
    match op
    case SetUp(_, pdpType, m) => SetUpEffect(t, pdpType, m)
    case OpenChannel(_, pdpType, allowed, matching, m) => OpenEffect(t, pdpType, allowed, matching, m)
    case Deactivate(_, cid) =>
      var (u, reply) := AfterDeactivation(t, cid);
      Effect(u, -1, -1, if IsIndex(cid - 1) then cid - 1 else -1, reply)
    case CloseChannel(_, cid) =>
      var (u, reply) := AfterClosing(t, cid);
      Effect(u, -1, -1, if IsIndex(cid - 1) then cid - 1 else -1, reply)
  }

  function Less(n: nat): nat {
    if n > 0 then n - 1 else 0
  }

  /** The users of a SIM after one of its requests. */
  function UsersAfter(users: Users, e: Effect): (r: Users)
    ensures forall i :: 0 <= i < MAX_PDP ==>
      r[i] == (if i in e.tables.puts then 0 else if i == e.left then Less(users[i]) else users[i])
        + (if i == e.gained then 1 else 0)
  {
    seq(MAX_PDP, i requires 0 <= i < MAX_PDP =>
      (if i in e.tables.puts then 0 else if i == e.left then Less(users[i]) else users[i])
        + (if i == e.gained then 1 else 0))
  }

  predicate Enabled(s: Service, op: Op) {
    Valid(s) && (op.Reset? || op.sim < |s.rows|)
  }

  function TablesOf(s: Service, sim: nat): Tables
    requires sim < |s.rows|
  {
    Tables(s.rows[sim], s.channels, {})
  }

  function EffectOf(s: Service, op: Op): Effect
    requires Enabled(s, op) && !op.Reset?
  {
    Perform(TablesOf(s, op.sim), op)
  }

  function Step(s: Service, op: Op): Service
    requires Enabled(s, op)
  {
    if op.Reset? then Fresh(|s.rows|)
    else
      var e := EffectOf(s, op);
      Service(s.rows[op.sim := e.tables.row], e.tables.channels, s.users[op.sim := UsersAfter(s.users[op.sim], e)])
  }

  // ---------- the law of the counts ----------

  /** All that matters of a request: it keeps the pairing, a busy context of the SIM stays busy unless
      it is given back, and the counts change as said. */
  ghost predicate Lawful(t: Tables, e: Effect) {
    && Paired(e.tables.row)
    && (forall i :: 0 <= i < MAX_PDP && t.row[i].state == Busy && i !in e.tables.puts ==> IsBusy(e.tables.row, i))
    && (forall i :: 0 <= i < MAX_PDP ==>
          e.tables.channels[i].count ==
            (if i in e.tables.puts then 0 else if i == e.left then Less(t.channels[i].count)
             else t.channels[i].count)
            + (if i == e.counted then 1 else 0))
    && (e.gained == -1 || (IsIndex(e.gained) && e.counted == e.gained))
    && (e.left == -1 || (IsIndex(e.left) && e.gained == e.counted == -1))
  }

  lemma SetupIsLawful(t: Tables, pdpType: PdpType, m: Modem)
    requires Paired(t.row) && t.puts == {}
    ensures Lawful(t, SetUpEffect(t, pdpType, m))
  {
    SetupKeeps(t, pdpType, m);
    forall i | 0 <= i < MAX_PDP
      ensures var e := SetUpEffect(t, pdpType, m);
        e.tables.channels[i].count == (if i in e.tables.puts then 0 else t.channels[i].count)
          + (if i == e.counted then 1 else 0)
    {
      SetupCounts(t, pdpType, m, i);
    }
  }

  lemma ReuseIsLawful(t: Tables, i: int)
    requires Paired(t.row) && t.puts == {} && IsBusy(t.row, i)
    ensures var c := MarkChannel(t.channels, i, Reuse);
      Lawful(t, Effect(t.(channels := c[i := c[i].(count := c[i].count + 1)]), i, i, -1, Success))
  {
  }

  lemma MarkedIsLawful(t: Tables, e: Effect, i: int, counted: int, reply: Reply)
    requires Lawful(t, e) && IsIndex(i) && counted == e.counted && e.left == -1 && (counted == -1 || IsIndex(counted))
    ensures Lawful(t, Effect(e.tables.(channels := MarkChannel(e.tables.channels, i, Open)), counted, counted, -1,
                             reply))
  {
  }

  lemma OpenIsLawful(t: Tables, pdpType: PdpType, allowed: bool, matching: set<int>, m: Modem)
    requires Paired(t.row) && t.puts == {}
    ensures Lawful(t, OpenEffect(t, pdpType, allowed, matching, m))
  {
    var i := BusyAmongLast(t.row, matching, |t.row|);
    if allowed && i != -1 {
      ReuseIsLawful(t, i);
    } else if allowed {
      OpenByASetupIsLawful(t, pdpType, matching, m);
    }
  }

  lemma OpenByASetupIsLawful(t: Tables, pdpType: PdpType, matching: set<int>, m: Modem)
    requires Paired(t.row) && t.puts == {} && BusyAmongLast(t.row, matching, |t.row|) == -1
    ensures Lawful(t, OpenEffect(t, pdpType, true, matching, m))
  {
    SetupIsLawful(t, pdpType, m);
    SetupKeeps(t, pdpType, m);
    var o := Setup(t, pdpType, m);
    if o.exit != Refused {
      MarkedIsLawful(t, SetUpEffect(t, pdpType, m), o.index, if o.attached then o.index else -1, Success);
    }
  }

  predicate LastUse(t: Tables, i: int)
    requires IsIndex(i)
  {
    IsBusy(t.row, i) && t.channels[i].count <= 1
  }

  /** A context and its fallback partner. */
  function PairOf(row: Row, i: int): set<int>
    requires IsIndex(i)
  {
    {i} + (if row[i].secondary != -1 then {row[i].secondary - 1} else {})
  }

  lemma LastUseFrees(t: Tables, i: int)
    requires Paired(t.row) && IsIndex(i) && t.puts == {} && LastUse(t, i)
    ensures var u := AfterDeactivation(t, i + 1).0;
      && Paired(u.row) && u.puts == PairOf(t.row, i)
      && forall k :: 0 <= k < MAX_PDP ==> u.row[k] == if k in PairOf(t.row, i) then FREE_SLOT else t.row[k]
    ensures AfterDeactivation(t, i + 1).1 == Success
  {
    LastUseIs(t, i);
    PairIsPut(t.(channels := t.channels[i := t.channels[i].(count := 0)]), i);
  }

  lemma PairIsPut(t: Tables, i: int)
    requires Paired(t.row) && IsIndex(i) && t.puts == {}
    ensures var u := PutAt(PutAt(t, t.row[i].secondary - 1), i);
      && Paired(u.row) && u.puts == PairOf(t.row, i)
      && forall k :: 0 <= k < MAX_PDP ==> u.row[k] == if k in PairOf(t.row, i) then FREE_SLOT else t.row[k]
  {
    PutPair(t, i);
  }

  lemma LastUseIs(t: Tables, i: int)
    requires IsIndex(i) && LastUse(t, i)
    ensures var u := t.(channels := t.channels[i := t.channels[i].(count := 0)]);
      AfterDeactivation(t, i + 1) == (PutAt(PutAt(u, t.row[i].secondary - 1), i), Success)
  {
    assert t.channels[i].count == 0 ==> t.channels[i := t.channels[i].(count := 0)] == t.channels;
  }

  /** A deactivation frees something iff the slot is busy and this is its last counted use; then it
      frees the slot and its fallback partner and nothing else. It fails iff uses are left. */
  lemma DeactivationFreesIff(t: Tables, i: int)
    requires Paired(t.row) && IsIndex(i) && t.puts == {}
    ensures var (u, reply) := AfterDeactivation(t, i + 1);
      && (u.row != t.row <==> LastUse(t, i))
      && reply == (if IsBusy(t.row, i) && t.channels[i].count > 1 then Failure else Success)
      && u.puts == (if LastUse(t, i) then PairOf(t.row, i) else {})
    ensures Paired(AfterDeactivation(t, i + 1).0.row)
  {
    if LastUse(t, i) {
      LastUseFrees(t, i);
      assert AfterDeactivation(t, i + 1).0.row[i] == FREE_SLOT;
    }
  }

  lemma DeactivationCounts(t: Tables, i: int)
    requires Paired(t.row) && IsIndex(i) && t.puts == {}
    ensures var u := AfterDeactivation(t, i + 1).0;
      forall k :: 0 <= k < MAX_PDP ==>
        u.channels[k].count ==
          if k in u.puts then 0 else if k == i then Less(t.channels[i].count) else t.channels[k].count
  {
  }

  lemma DeactivationKeepsBusy(t: Tables, i: int)
    requires Paired(t.row) && IsIndex(i) && t.puts == {}
    ensures var u := AfterDeactivation(t, i + 1).0;
      && Paired(u.row)
      && forall k :: 0 <= k < MAX_PDP && t.row[k].state == Busy && k !in u.puts ==> u.row[k] == t.row[k]
  {
    DeactivationFreesIff(t, i);
    if LastUse(t, i) {
      LastUseFrees(t, i);
    }
  }

  lemma DeactivationIsLawful(t: Tables, cid: int, sim: nat)
    requires Paired(t.row) && t.puts == {}
    ensures Lawful(t, Perform(t, Deactivate(sim, cid)))
  {
    if 1 <= cid <= MAX_PDP {
      DeactivationKeepsBusy(t, cid - 1);
      DeactivationCounts(t, cid - 1);
    }
  }

  lemma ClosingIsLawful(t: Tables, cid: int, sim: nat)
    requires Paired(t.row) && t.puts == {}
    ensures Lawful(t, Perform(t, CloseChannel(sim, cid)))
  {
    if 1 <= cid <= MAX_PDP {
      var closed := t.(channels := MarkChannel(t.channels, cid - 1, Close));
      DeactivationIsLawful(closed, cid, sim);
      assert Perform(closed, Deactivate(sim, cid)).tables == Perform(t, CloseChannel(sim, cid)).tables;
    }
  }

  lemma RequestIsLawful(s: Service, op: Op)
    requires Enabled(s, op) && !op.Reset?
    ensures Lawful(TablesOf(s, op.sim), EffectOf(s, op))
  {
    var t := TablesOf(s, op.sim);
    match op
    case SetUp(_, pdpType, m) => SetupIsLawful(t, pdpType, m);
    case OpenChannel(_, pdpType, allowed, matching, m) => OpenIsLawful(t, pdpType, allowed, matching, m);
    case Deactivate(sim, cid) => DeactivationIsLawful(t, cid, sim);
    case CloseChannel(sim, cid) => ClosingIsLawful(t, cid, sim);
  }

  lemma StepKeepsValid(s: Service, op: Op)
    requires Enabled(s, op)
    ensures Valid(Step(s, op)) && |Step(s, op).rows| == |s.rows|
  {
    if !op.Reset? {
      RequestIsLawful(s, op);
    }
  }

  // ---------- counts against users ----------

  function Total(users: seq<Users>, i: int): nat
    requires IsIndex(i)
  {
    if users == [] then 0 else users[0][i] + Total(users[1..], i)
  }

  lemma {:induction false} TotalOfUpdate(users: seq<Users>, k: nat, u: Users, i: int)
    requires IsIndex(i) && k < |users|
    ensures Total(users[k := u], i) == Total(users, i) - users[k][i] + u[i]
    ensures Total(users, i) >= users[k][i]
  {
    if k > 0 {
      assert users[k := u][1..] == users[1..][k - 1 := u];
      TotalOfUpdate(users[1..], k - 1, u, i);
    } else {
      assert users[k := u][1..] == users[1..];
    }
  }

  lemma {:induction false} NoUsers(sims: nat, i: int)
    requires IsIndex(i)
    ensures Total(seq<Users>(sims, _ => seq(MAX_PDP, _ => 0)), i) == 0
  {
    if sims > 0 {
      NoUsers(sims - 1, i);
      assert seq<Users>(sims, _ => seq(MAX_PDP, _ => 0))[1..] == seq<Users>(sims - 1, _ => seq(MAX_PDP, _ => 0));
    }
  }

  /** The users of context i on the other SIMs. */
  function Others(s: Service, sim: nat, i: int): nat
    requires sim < |s.users| && IsIndex(i)
  {
    TotalOfUpdate(s.users, sim, s.users[sim], i);
    Total(s.users, i) - s.users[sim][i]
  }

  /** How far the count of a context is above the number of its users. */
  function Drift(s: Service, i: int): int
    requires IsIndex(i)
  {
    s.channels[i].count - Total(s.users, i)
  }

  /** What a request forgets of the users of context i: all on the other SIMs if it gives the context
      back, and one if it deactivates what only others use. */
  function Forgotten(s: Service, op: Op, e: Effect, i: int): nat
    requires IsIndex(i) && !op.Reset? && op.sim < |s.users|
  {
    if i in e.tables.puts then Others(s, op.sim, i)
    else if i == e.left && s.users[op.sim][i] == 0 && s.channels[i].count > 0 then 1
    else 0
  }

  /** What it counts without a user: a use that nobody was told of, or one that was not counted when it
      began. */
  function Phantom(s: Service, op: Op, e: Effect, i: int): nat
    requires IsIndex(i) && !op.Reset? && op.sim < |s.users|
  {
    if i == e.counted && i != e.gained then 1
    else if i !in e.tables.puts && i == e.left && s.users[op.sim][i] > 0 && s.channels[i].count == 0 then 1
    else 0
  }

  /** The law of the counts, for every request in every state. */
  lemma DriftLaw(s: Service, op: Op, i: int)
    requires Enabled(s, op) && !op.Reset? && IsIndex(i)
    ensures var e := EffectOf(s, op);
      Drift(Step(s, op), i) == (if i in e.tables.puts then 0 else Drift(s, i))
                               + Phantom(s, op, e, i) - Forgotten(s, op, e, i)
  {
    CountAfter(s, op, i);
    UsersOf(s, op, i);
  }

  lemma UsersOf(s: Service, op: Op, i: int)
    requires Enabled(s, op) && !op.Reset? && IsIndex(i)
    ensures Total(Step(s, op).users, i) ==
      Others(s, op.sim, i) + UsersAfter(s.users[op.sim], EffectOf(s, op))[i]
  {
    TotalOfUpdate(s.users, op.sim, UsersAfter(s.users[op.sim], EffectOf(s, op)), i);
  }

  lemma CountAfter(s: Service, op: Op, i: int)
    requires Enabled(s, op) && !op.Reset? && IsIndex(i)
    ensures var e := EffectOf(s, op);
      && Step(s, op).channels[i].count ==
           (if i in e.tables.puts then 0 else if i == e.left then Less(s.channels[i].count)
            else s.channels[i].count)
           + (if i == e.counted then 1 else 0)
      && (e.gained == i ==> e.counted == i)
  {
    RequestIsLawful(s, op);
  }

  ghost predicate Exact(s: Service) {
    forall i :: 0 <= i < MAX_PDP ==> Drift(s, i) == 0
  }

  predicate UsedAreBusy(s: Service)
    requires Valid(s)
  {
    forall k, i :: 0 <= k < |s.rows| && 0 <= i < MAX_PDP && s.users[k][i] > 0 ==> IsBusy(s.rows[k], i)
  }

  /** What the counts are for: each is the number of users, and what is used is up. */
  ghost predicate Sound(s: Service) {
    Valid(s) && Exact(s) && UsedAreBusy(s)
  }

  /** What a request forgets and what it counts without a user cancel out, and what it adds a user to is up. */
  predicate Balanced(s: Service, op: Op)
    requires Enabled(s, op)
  {
    op.Reset? ||
    (var e := EffectOf(s, op);
     && (forall i :: 0 <= i < MAX_PDP ==> Forgotten(s, op, e, i) == Phantom(s, op, e, i))
     && (e.gained != -1 ==> IsBusy(e.tables.row, e.gained)))
  }

  lemma FreshIsSound(sims: nat)
    ensures Sound(Fresh(sims))
  {
    forall i | 0 <= i < MAX_PDP ensures Drift(Fresh(sims), i) == 0 {
      NoUsers(sims, i);
    }
  }

  lemma StepKeepsExactIff(s: Service, op: Op)
    requires Enabled(s, op) && Exact(s) && !op.Reset?
    ensures var e := EffectOf(s, op);
      Exact(Step(s, op)) <==> forall i :: 0 <= i < MAX_PDP ==> Forgotten(s, op, e, i) == Phantom(s, op, e, i)
  {
    var e := EffectOf(s, op);
    var s' := Step(s, op);
    forall i | 0 <= i < MAX_PDP ensures Drift(s', i) == Phantom(s, op, e, i) - Forgotten(s, op, e, i) {
      DriftLaw(s, op, i);
      assert Drift(s, i) == 0;
    }
  }

  lemma StepKeepsUsedBusyIff(s: Service, op: Op)
    requires Enabled(s, op) && Sound(s) && !op.Reset?
    ensures Valid(Step(s, op))
    ensures var e := EffectOf(s, op);
      UsedAreBusy(Step(s, op)) <==> (e.gained != -1 ==> IsBusy(e.tables.row, e.gained))
  {
    StepKeepsValid(s, op);
    RequestIsLawful(s, op);
    var e := EffectOf(s, op);
    var s' := Step(s, op);
    if e.gained != -1 {
      assert s'.users[op.sim][e.gained] > 0;
    }
    if e.gained != -1 ==> IsBusy(e.tables.row, e.gained) {
      forall k, i | 0 <= k < |s'.rows| && 0 <= i < MAX_PDP && s'.users[k][i] > 0 ensures IsBusy(s'.rows[k], i) {
        assert s.users[k][i] > 0 ==> IsBusy(s.rows[k], i);
        assert s.users[op.sim][i] > 0 ==> IsBusy(s.rows[op.sim], i);
        UsedIsBusy(TablesOf(s, op.sim), e, s.users[op.sim], i);
      }
    }
  }

  /** What is used after a lawful request is up, if the context it adds a user to is. */
  lemma UsedIsBusy(t: Tables, e: Effect, users: Users, i: int)
    requires Lawful(t, e) && IsIndex(i) && (users[i] > 0 ==> IsBusy(t.row, i))
    requires e.gained != -1 ==> IsBusy(e.tables.row, e.gained)
    ensures UsersAfter(users, e)[i] > 0 ==> IsBusy(e.tables.row, i)
  {
  }

  lemma SoundIffBalanced(s: Service, op: Op)
    requires Enabled(s, op) && Sound(s)
    ensures Sound(Step(s, op)) <==> Balanced(s, op)
  {
    if op.Reset? {
      FreshIsSound(|s.rows|);
    } else {
      StepKeepsExactIff(s, op);
      StepKeepsUsedBusyIff(s, op);
    }
  }

  // ---------- runs ----------

  predicate AllEnabled(s: Service, ops: seq<Op>) {
    Valid(s) && forall k :: 0 <= k < |ops| ==> ops[k].Reset? || ops[k].sim < |s.rows|
  }

  function Run(s: Service, ops: seq<Op>): (r: Service)
    requires AllEnabled(s, ops)
    ensures Valid(r) && |r.rows| == |s.rows|
    decreases ops
  {
    if ops == [] then s
    else
      StepKeepsValid(s, ops[0]);
      Run(Step(s, ops[0]), ops[1..])
  }

  // ---------- when a deactivation releases ----------

  function ReplyTo(s: Service, op: Op): Reply
    requires Enabled(s, op)
  {
    if op.Reset? then Success else EffectOf(s, op).reply
  }

  /** Of n deactivations in a row by one SIM the first n - 1 fail and change no slot, and the last succeeds
      and frees the context. */
  predicate ReleasedByNth(t: Tables, i: int, n: nat)
    requires IsIndex(i) && n >= 1
    decreases n
  {
    var (u, reply) := AfterDeactivation(t, i + 1);
    if n == 1 then reply == Success && u.row[i] == FREE_SLOT
    else reply == Failure && u.row == t.row && ReleasedByNth(u, i, n - 1)
  }

  /** It is the n-th deactivation that releases a context iff its count is n (or 0, for the first). */
  lemma {:induction false} NthReleasesIff(t: Tables, i: int, n: nat)
    requires IsBusy(t.row, i) && n >= 1
    ensures ReleasedByNth(t, i, n) <==> t.channels[i].count == n || (n == 1 && t.channels[i].count == 0)
    decreases n
  {
    if n > 1 && t.channels[i].count > 1 {
      NthReleasesIff(AfterDeactivation(t, i + 1).0, i, n - 1);
    }
  }

  /** As long as the service is sound, the users of a context release it with their last deactivation iff
      no other SIM uses the same context number. */
  lemma UsersReleaseIff(s: Service, sim: nat, i: int)
    requires Sound(s) && sim < |s.rows| && IsIndex(i) && s.users[sim][i] >= 1
    ensures ReleasedByNth(TablesOf(s, sim), i, s.users[sim][i]) <==> Others(s, sim, i) == 0
  {
    assert Drift(s, i) == 0 && IsBusy(s.rows[sim], i);
    NthReleasesIff(TablesOf(s, sim), i, s.users[sim][i]);
  }

  /** A single deactivation by a user succeeds iff it was the last user on any SIM; then the fallback
      partner goes too, with whoever uses it. */
  lemma LastUserReleases(s: Service, sim: nat, i: int)
    requires Sound(s) && sim < |s.rows| && IsIndex(i) && s.users[sim][i] >= 1
    ensures var (op, row) := (Deactivate(sim, i + 1), s.rows[sim]);
      && (ReplyTo(s, op) == Success <==> Total(s.users, i) == 1)
      && (ReplyTo(s, op) == Failure <==> Total(s.users, i) > 1)
      && (forall k :: 0 <= k < MAX_PDP ==>
            Step(s, op).rows[sim][k] ==
              if Total(s.users, i) == 1 && k in PairOf(row, i) then FREE_SLOT else row[k])
      && (forall k :: 0 <= k < MAX_PDP && k != i ==>
            Step(s, op).users[sim][k] ==
              if Total(s.users, i) == 1 && k in PairOf(row, i) then 0 else s.users[sim][k])
  {
    assert Drift(s, i) == 0 && IsBusy(s.rows[sim], i);
    TotalOfUpdate(s.users, sim, s.users[sim], i);
    assert LastUse(TablesOf(s, sim), i) <==> Total(s.users, i) == 1;
    RowsAfter(s, sim, i);
  }

  lemma RowsAfter(s: Service, sim: nat, i: int)
    requires Valid(s) && sim < |s.rows| && IsIndex(i)
    ensures var (e, t) := (EffectOf(s, Deactivate(sim, i + 1)), TablesOf(s, sim));
      && e.tables.puts == (if LastUse(t, i) then PairOf(t.row, i) else {}) && e.left == i && e.gained == -1
      && e.reply == (if IsBusy(t.row, i) && t.channels[i].count > 1 then Failure else Success)
      && forall k :: 0 <= k < MAX_PDP ==> e.tables.row[k] == if k in e.tables.puts then FREE_SLOT else t.row[k]
  {
    var t := TablesOf(s, sim);
    DeactivationFreesIff(t, i);
    if LastUse(t, i) {
      LastUseFrees(t, i);
    }
  }

  // ---------- two runs ----------

  /** The context a setup of the SIM will try, no slot of the SIM being marked unusable. */
  predicate NextContext(s: Service, sim: nat, i: int) {
    Valid(s) && sim < |s.rows| && IsIndex(i) && FirstFree(s.rows[sim], {}) == i && s.rows[sim][i] == FREE_SLOT
    && forall j :: 0 <= j < MAX_PDP ==> s.rows[sim][j].cid != UNUSABLE_CID
  }

  function WithCount(s: Service, i: int, n: nat): Channels
    requires IsIndex(i)
  {
    s.channels[i := s.channels[i].(count := n, pdpState := true)]
  }

  lemma NoMarks(row: Row)
    requires forall j :: 0 <= j < MAX_PDP ==> row[j].cid != UNUSABLE_CID
    ensures GivenBack(row) == row
  {
  }

  lemma RefusedStep(s: Service, sim: nat, i: int)
    requires NextContext(s, sim, i) && s.users[sim][i] == 0
    ensures var op := SetUp(sim, Ip, Always(REFUSED_PASS, Unreadable));
      ReplyTo(s, op) == Failure && Step(s, op) == s.(channels := WithCount(s, i, 1))
  {
    var op := SetUp(sim, Ip, Always(REFUSED_PASS, Unreadable));
    RefusedSetup(TablesOf(s, sim), Unreadable);
    NoMarks(s.rows[sim]);
    assert s.rows[sim][i := FREE_SLOT] == s.rows[sim];
    assert EffectOf(s, op).tables.channels == WithCount(s, i, 1);
    assert UsersAfter(s.users[sim], EffectOf(s, op)) == s.users[sim];
  }

  lemma GoodStep(s: Service, sim: nat, i: int)
    requires NextContext(s, sim, i)
    ensures var op := SetUp(sim, Ip, Always(GOOD_PASS, Active));
      && ReplyTo(s, op) == Success
      && Step(s, op) == Service(s.rows[sim := s.rows[sim][i := Slot(i + 1, -1, false, Busy)]],
                                WithCount(s, i, s.channels[i].count + 1),
                                s.users[sim := s.users[sim][i := s.users[sim][i] + 1]])
  {
    var op := SetUp(sim, Ip, Always(GOOD_PASS, Active));
    GoodSetup(TablesOf(s, sim), Active);
    NoMarks(s.rows[sim][i := Slot(i + 1, -1, false, Busy)]);
    assert EffectOf(s, op).tables.channels == WithCount(s, i, s.channels[i].count + 1);
    assert UsersAfter(s.users[sim], EffectOf(s, op)) == s.users[sim][i := s.users[sim][i] + 1];
  }

  lemma SilentStep(s: Service, sim: nat, i: int)
    requires NextContext(s, sim, i)
    ensures var op := SetUp(sim, Ip, Always(SILENT_PASS, Active));
      && ReplyTo(s, op) == Failure
      && Step(s, op) == Service(s.rows, WithCount(s, i, 0), s.users[sim := s.users[sim][i := 0]])
  {
    var op := SetUp(sim, Ip, Always(SILENT_PASS, Active));
    SilentSetup(TablesOf(s, sim), Active);
    NoMarks(s.rows[sim]);
    assert s.rows[sim][i := FREE_SLOT] == s.rows[sim];
    assert EffectOf(s, op).tables.row == s.rows[sim];
    assert EffectOf(s, op).tables.channels == WithCount(s, i, 0);
    assert UsersAfter(s.users[sim], EffectOf(s, op)) == s.users[sim][i := 0];
  }

  /** One SIM: six answers 288 and an unreadable list, then a setup that succeeds, then the deactivation
      by the only user there is. It fails, and the bearer stays up without a user. */
  lemma CountedForNobody(s: Service, sim: nat, i: int)
    requires NextContext(s, sim, i) && s.users[sim][i] == 0
    ensures
      var refused := SetUp(sim, Ip, Always(REFUSED_PASS, Unreadable));
      var good := SetUp(sim, Ip, Always(GOOD_PASS, Active));
      var s1 := Step(s, refused);
      && Enabled(s1, good)
      && var s2 := Step(s1, good);
         && Enabled(s2, Deactivate(sim, i + 1))
         && ReplyTo(s, refused) == Failure && ReplyTo(s1, good) == Success
         && s2.users[sim][i] == 1 && s2.channels[i].count == 2
         && ReplyTo(s2, Deactivate(sim, i + 1)) == Failure
         && IsBusy(Step(s2, Deactivate(sim, i + 1)).rows[sim], i)
         && Step(s2, Deactivate(sim, i + 1)).users[sim][i] == 0
  {
    var refused := SetUp(sim, Ip, Always(REFUSED_PASS, Unreadable));
    var good := SetUp(sim, Ip, Always(GOOD_PASS, Active));
    RefusedStep(s, sim, i);
    var s1 := Step(s, refused);
    GoodStep(s1, sim, i);
    StepKeepsValid(s1, good);
    OneOfTwoLeaves(Step(s1, good), sim, i);
  }

  /** A deactivation when two uses are counted. */
  lemma OneOfTwoLeaves(s: Service, sim: nat, i: int)
    requires Valid(s) && sim < |s.rows| && IsBusy(s.rows[sim], i) && s.channels[i].count == 2 && s.users[sim][i] == 1
    ensures var op := Deactivate(sim, i + 1);
      ReplyTo(s, op) == Failure && IsBusy(Step(s, op).rows[sim], i) && Step(s, op).users[sim][i] == 0
  {
    DeactivationFreesIff(TablesOf(s, sim), i);
  }

  /** Two SIMs that try the same context next. SIM a has two users of it, a setup and a channel that
      reuses it; a setup of SIM b is refused; and the first of a's users to leave takes the bearer from
      the other. */
  lemma ForgottenByAnother(s: Service, a: nat, b: nat, i: int, m: Modem)
    requires a != b && NextContext(s, a, i) && NextContext(s, b, i)
    requires s.channels[i].count == 0 && s.users[a][i] == 0
    ensures
      var (good, open) := (SetUp(a, Ip, Always(GOOD_PASS, Active)), OpenChannel(a, Ip, true, {i}, m));
      && Enabled(Step(s, good), open)
      && var s2 := Step(Step(s, good), open);
         s2.users[a][i] == 2 == s2.channels[i].count && TakenByTheFirst(s2, a, b, i)
  {
    var (good, open) := (SetUp(a, Ip, Always(GOOD_PASS, Active)), OpenChannel(a, Ip, true, {i}, m));
    GoodStep(s, a, i);
    var s1 := Step(s, good);
    StepKeepsValid(s, good);
    ReuseStep(s1, a, i, m);
    StepKeepsValid(s1, open);
    RefusalTakesTheBearer(Step(s1, open), a, b, i);
  }

  /** After a refused setup of SIM b the first deactivation by a releases the context, whoever of a uses it. */
  predicate TakenByTheFirst(s: Service, a: nat, b: nat, i: int) {
    var (silent, leave) := (SetUp(b, Ip, Always(SILENT_PASS, Active)), Deactivate(a, i + 1));
    && IsIndex(i) && Enabled(s, silent) && Enabled(Step(s, silent), leave)
    && IsBusy(s.rows[a], i) && Step(s, silent).rows == s.rows && Step(s, silent).users[a] == s.users[a]
    && ReplyTo(Step(s, silent), leave) == Success
    && Step(Step(s, silent), leave).rows[a][i] == FREE_SLOT
  }

  lemma RefusalTakesTheBearer(s: Service, a: nat, b: nat, i: int)
    requires Valid(s) && a < |s.rows| && a != b && IsBusy(s.rows[a], i) && NextContext(s, b, i)
    ensures TakenByTheFirst(s, a, b, i)
  {
    var silent := SetUp(b, Ip, Always(SILENT_PASS, Active));
    SilentStep(s, b, i);
    StepKeepsValid(s, silent);
    LastUseFrees(TablesOf(Step(s, silent), a), i);
  }

  lemma ReuseStep(s: Service, sim: nat, i: int, m: Modem)
    requires Valid(s) && sim < |s.rows| && IsBusy(s.rows[sim], i)
    ensures var op := OpenChannel(sim, Ip, true, {i}, m);
      && Step(s, op).rows == s.rows && Step(s, op).channels[i].count == s.channels[i].count + 1
      && Step(s, op).users == s.users[sim := s.users[sim][i := s.users[sim][i] + 1]]
  {
    var op := OpenChannel(sim, Ip, true, {i}, m);
    assert BusyAmongLast(s.rows[sim], {i}, |s.rows[sim]|) == i;
    assert s.rows[sim := s.rows[sim]] == s.rows;
    assert UsersAfter(s.users[sim], EffectOf(s, op)) == s.users[sim][i := s.users[sim][i] + 1];
  }
}
