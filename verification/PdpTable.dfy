/** The PDP context slots of one SIM and the open-channel records (sprd-ril/ril_data.c): what each
    table operation does to them, and what all of them keep. */
module PdpTable {

  const MAX_PDP := 6
  const UNUSABLE_CID := 0

  datatype SlotState = Idle | Busy

  datatype Slot = Slot(cid: int, secondary: int, primary: bool, state: SlotState)

  datatype ChannelState = Open | Reuse | Close

  datatype Channel = Channel(cid: int, state: ChannelState, pdpState: bool, count: nat)

  type Row = r: seq<Slot> | |r| == MAX_PDP witness seq(MAX_PDP, _ => FREE_SLOT)
  type Channels = c: seq<Channel> | |c| == MAX_PDP witness seq(MAX_PDP, _ => CLOSED_CHANNEL)

  const FREE_SLOT := Slot(-1, -1, false, Idle)
  const CLOSED_CHANNEL := Channel(-1, Close, false, 0)

  predicate IsIndex(i: int) {
    0 <= i < MAX_PDP
  }

  predicate IsBusy(row: Row, i: int) {
    IsIndex(i) && row[i].state == Busy
  }

  // ---------- the operations on one row ----------

  /** putPDP: the slot is free afterwards, and its partner no longer names it. */
  function Put(row: Row, i: int): Row {
    if !IsIndex(i) then row
    else
      var j := row[i].secondary - 1;
      var row' := if IsIndex(j) then row[j := row[j].(secondary := -1)] else row;
      row'[i := FREE_SLOT]
  }

  function PutChannel(channels: Channels, i: int): Channels {
    if !IsIndex(i) then channels
    else channels[i := channels[i].(count := 0, pdpState := false)]
  }

  function PutByIndex(row: Row, i: int): Row {
    if IsIndex(i) then row[i := row[i].(state := Idle)] else row
  }

  /** updatePDPCid: 1 marks the context active, 0 inactive, -1 unusable. */
  function UpdateCid(row: Row, cid: int, mark: int): Row {
    if !(0 < cid <= MAX_PDP) then row
    else if mark == 1 then row[cid - 1 := row[cid - 1].(cid := cid)]
    else if mark == 0 then row[cid - 1 := row[cid - 1].(cid := -1)]
    else if mark == -1 && row[cid - 1].cid == -1 then
      row[cid - 1 := row[cid - 1].(cid := UNUSABLE_CID)]
    else row
  }

  function SetMapping(row: Row, primary: int, secondary: int): Row {
    if !IsIndex(primary) || !IsIndex(secondary) then row
    else
      var row' := row[primary := row[primary].(cid := primary + 1, secondary := secondary + 1,
                                               primary := true)];
      row'[secondary := row'[secondary].(cid := secondary + 1, secondary := primary + 1,
                                         primary := false)]
  }

  /** The slots putUnusablePDPCid gives back. */
  function Unusable(row: Row): set<int> {
    set i | 0 <= i < MAX_PDP && row[i].cid == UNUSABLE_CID
  }

  // ---------- fallback pairing ----------

  /** The pairing is a partial involution without fixed points, one of a pair is the primary, and
      only busy slots are paired. */
  predicate Paired(row: Row) {
    && (forall i :: 0 <= i < MAX_PDP && row[i].secondary != -1 ==>
          IsIndex(row[i].secondary - 1) && row[i].secondary - 1 != i && row[i].state == Busy)
    && (forall i, j :: 0 <= i < MAX_PDP && 0 <= j < MAX_PDP && row[i].secondary == j + 1 ==>
          row[j].secondary == i + 1 && row[j].primary == !row[i].primary)
  }

  lemma PutKeepsPairing(row: Row, i: int)
    requires Paired(row)
    ensures Paired(Put(row, i))
    ensures forall j :: 0 <= j < MAX_PDP && j != i && row[j].secondary != i + 1 ==>
      Put(row, i)[j] == row[j]
    ensures IsIndex(i) && IsIndex(row[i].secondary - 1) ==>
      var j := row[i].secondary - 1;
      Put(row, i)[j] == row[j].(secondary := -1)
  {
  }

  lemma UpdateKeepsPairing(row: Row, cid: int, mark: int)
    requires Paired(row)
    ensures Paired(UpdateCid(row, cid, mark))
  {
    var row' := UpdateCid(row, cid, mark);
    assert forall j :: 0 <= j < MAX_PDP ==>
      row'[j].secondary == row[j].secondary && row'[j].primary == row[j].primary
      && row'[j].state == row[j].state;
  }

  /** putPDPByIndex is safe exactly on a slot without a partner: it does not unpair. */
  lemma PutByIndexKeepsPairing(row: Row, i: int)
    requires Paired(row) && IsIndex(i)
    ensures Paired(PutByIndex(row, i)) <==> row[i].secondary == -1
  {
    var row' := PutByIndex(row, i);
    if row[i].secondary == -1 {
      assert forall j :: 0 <= j < MAX_PDP && j != i ==> row'[j] == row[j];
    } else {
      assert row'[i].secondary != -1 && row'[i].state == Idle;
    }
  }

  /** setPDPMapping is safe exactly on two different busy slots, neither of which has a partner
      other than the one it is being given. */
  lemma MappingKeepsPairing(row: Row, p: int, s: int)
    requires Paired(row) && IsIndex(p) && IsIndex(s)
    ensures Paired(SetMapping(row, p, s)) <==>
      && p != s && row[p].state == Busy && row[s].state == Busy
      && row[p].secondary in {-1, s + 1} && row[s].secondary in {-1, p + 1}
  {
    var row' := SetMapping(row, p, s);
    assert row'[s].secondary == p + 1;
    if p != s {
      assert row'[p].secondary == s + 1;
      OtherPartner(row, p, s, p);
      OtherPartner(row, p, s, s);
    }
  }

  /** A slot that has another partner leaves that one without it. */
  lemma OtherPartner(row: Row, p: int, s: int, i: int)
    requires Paired(row) && IsIndex(p) && IsIndex(s) && p != s && (i == p || i == s)
    ensures row[i].secondary !in {-1, p + 1, s + 1} ==> !Paired(SetMapping(row, p, s))
  {
    if row[i].secondary !in {-1, p + 1, s + 1} {
      var k := row[i].secondary - 1;
      assert SetMapping(row, p, s)[k] == row[k];
    }
  }

  /** Putting a slot and its partner frees exactly the two. */
  lemma PutBoth(row: Row, i: int)
    requires Paired(row) && IsIndex(i)
    ensures var j := row[i].secondary - 1;
      Put(Put(row, j), i) == if row[i].secondary == -1 then row[i := FREE_SLOT]
                             else row[j := FREE_SLOT][i := FREE_SLOT]
    ensures Paired(Put(Put(row, row[i].secondary - 1), i))
  {
    var j := row[i].secondary - 1;
    PutKeepsPairing(row, j);
    PutKeepsPairing(Put(row, j), i);
    if row[i].secondary != -1 {
      assert row[j].secondary == i + 1;
      assert Put(row, j) == row[i := row[i].(secondary := -1)][j := FREE_SLOT];
      assert Put(row, j)[i].secondary == -1;
    }
  }
}
