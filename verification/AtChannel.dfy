/** The code of sprd-ril/atchannel.c behind the transactions of AtTransaction: the linked list of
    intermediate lines, built from the front and reversed in place, and processLine itself. */
module AtChannel {
  import opened AtTransaction
  import opened Options

  // ---------- strStartsWith and the tables of final responses ----------

  method StrStartsWith(line: string, prefix: string) returns (r: bool)
    ensures r <==> prefix <= line
  {
    var i := 0;
    while i < |line| && i < |prefix|
      invariant i <= |line| && i <= |prefix| && line[..i] == prefix[..i]
    {
      if line[i] != prefix[i] {
        return false;
      }
      i := i + 1;
    }
    r := i == |prefix|;
  }

  method IsFinalResponse(line: string, table: seq<string>) returns (r: bool)
    ensures r <==> StartsWithOneOf(line, table)
  {
    for i := 0 to |table|
      invariant forall j :: 0 <= j < i ==> !(table[j] <= line)
    {
      var starts := StrStartsWith(line, table[i]);
      if starts {
        return true;
      }
    }
    r := false;
  }

  // ---------- the list of intermediate lines ----------

  class ATLine {
    const line: string
    var next: ATLine?

    constructor (line: string, next: ATLine?)
      ensures this.line == line && this.next == next
    {
      this.line, this.next := line, next;
    }
  }

  function Node(nodes: seq<ATLine>, i: nat): ATLine? {
    if i < |nodes| then nodes[i] else null
  }

  /** `nodes` are the lines that hang off `head`, in the order of the p_next pointers. */
  ghost predicate Chain(head: ATLine?, nodes: seq<ATLine>)
    reads nodes
  {
    && head == Node(nodes, 0)
    && (forall i, j :: 0 <= i < j < |nodes| ==> nodes[i] != nodes[j])
    && forall i :: 0 <= i < |nodes| ==> nodes[i].next == Node(nodes, i + 1)
  }

  function LinesOf(nodes: seq<ATLine>): (r: seq<string>)
    ensures |r| == |nodes| && forall i :: 0 <= i < |r| ==> r[i] == nodes[i].line
  {
    seq(|nodes|, i requires 0 <= i < |nodes| => nodes[i].line)
  }

  class ATResponse {
    var success: bool
    var final: Option<string>
    var intermediates: ATLine?
    ghost var nodes: seq<ATLine>

    ghost predicate Valid()
      reads this, nodes
    {
      Chain(intermediates, nodes)
    }

    constructor ()
      ensures Valid() && !success && final == None && nodes == []
    {
      success, final, intermediates, nodes := false, None, null, [];
    }

    /** addIntermediate: the new line goes to the head of the list. */
    method AddIntermediate(line: string)
      requires Valid()
      modifies this`intermediates, this`nodes
      ensures Valid() && LinesOf(nodes) == [line] + LinesOf(old(nodes))
      ensures |nodes| == |old(nodes)| + 1 && fresh(nodes[0]) && nodes[1..] == old(nodes)
    {
      var new_ := new ATLine(line, intermediates);
      intermediates := new_;
      ghost var was := nodes;
      nodes := [new_] + nodes;
      PrependedChain(new_, was);
    }

    method ReverseIntermediates()
      requires Valid()
      modifies this`intermediates, this`nodes, (set n | n in nodes)`next
      ensures Valid() && nodes == Reversed(old(nodes))
      ensures LinesOf(nodes) == Reversed(LinesOf(old(nodes)))
    {
      ghost var all := nodes;
      ReversedLines(all);
      SameNodes(all);
      intermediates := ReverseChain(intermediates, all);
      nodes := Reversed(all);
    }
  }

  lemma SameNodes(s: seq<ATLine>)
    ensures forall x :: x in Reversed(s) <==> x in s
  {
    forall x | x in s ensures x in Reversed(s) {
      var j :| 0 <= j < |s| && s[j] == x;
      assert Reversed(s)[|s| - 1 - j] == x;
    }
  }

  lemma ReversedTail<T>(s: seq<T>, k: nat)
    requires k < |s|
    ensures Reversed(s[..k + 1]) == [s[k]] + Reversed(s[..k])
  {
  }

  /** The loop of reverseIntermediates: the same nodes, linked the other way round. */
  method ReverseChain(head: ATLine?, ghost all: seq<ATLine>) returns (r: ATLine?)
    requires Chain(head, all)
    modifies (set n | n in all)`next
    ensures Chain(r, Reversed(all))
  {
    ghost var rest, done: seq<ATLine> := all, [];
    var cur := head;
    r := null;
    while cur != null
      invariant Chain(cur, rest) && Chain(r, done) && HalfReversed(all, rest, done)
      decreases |rest|
    {
      HalfStep(all, rest, done);
      var next := Relink(cur, r, rest, done);
      r, done := cur, [cur] + done;
      cur, rest := next, rest[1..];
    }
    assert rest == [] && all[..|done|] == all;
  }

  /** Of `all`, the nodes in `done` have been reversed and those in `rest` have not. */
  ghost predicate HalfReversed(all: seq<ATLine>, rest: seq<ATLine>, done: seq<ATLine>) {
    && |done| + |rest| == |all|
    && rest == all[|done|..] && done == Reversed(all[..|done|])
    && forall n :: n in done ==> n !in rest
  }

  lemma HalfStep(all: seq<ATLine>, rest: seq<ATLine>, done: seq<ATLine>)
    requires HalfReversed(all, rest, done) && rest != []
    requires forall i, j :: 0 <= i < j < |rest| ==> rest[i] != rest[j]
    ensures HalfReversed(all, rest[1..], [rest[0]] + done)
  {
    ReversedTail(all, |done|);
    assert rest[0] == all[|done|] && rest[1..] == all[|done| + 1..];
  }

  /** The body of the loop above: the first node of one chain goes to the front of the other. */
  method Relink(cur: ATLine, back: ATLine?, ghost rest: seq<ATLine>, ghost done: seq<ATLine>)
      returns (next: ATLine?)
    requires Chain(cur, rest) && Chain(back, done) && forall n :: n in done ==> n !in rest
    modifies cur`next
    ensures Chain(next, rest[1..]) && Chain(cur, [cur] + done)
  {
    next := cur.next;
    assert cur == rest[0] && cur !in done;
    assert forall i :: 0 <= i < |rest[1..]| ==> rest[1..][i] == rest[i + 1];
    cur.next := back;
    PrependedChain(cur, done);
  }

  lemma PrependedChain(head: ATLine, rest: seq<ATLine>)
    requires Chain(head.next, rest) && head !in rest
    ensures Chain(head, [head] + rest)
  {
    var nodes := [head] + rest;
    assert forall i :: 0 < i < |nodes| ==> nodes[i] == rest[i - 1];
    forall i | 0 < i < |nodes| ensures nodes[i].next == Node(nodes, i + 1) {
      assert rest[i - 1].next == Node(rest, i);
    }
  }

  // ---------- the channel ----------

  class ATChannel {
    var response: ATResponse?
    var kind: Kind
    var responsePrefix: string
    var smsPDU: Option<string>
    ghost var unsolicited: seq<string>
    ghost var prompted: seq<string>

    ghost predicate Valid()
      reads this, response, if response == null then [] else response.nodes
    {
      response != null ==> response.Valid()
    }

    ghost function View(): Channel
      reads this, response
    {
      Channel(if response == null then None
              else Some(Pending(Command(kind, responsePrefix, smsPDU), response.success, response.final,
                                LinesOf(response.nodes))),
              unsolicited, prompted)
    }

    /** handleUnsolicited: the handler is called with the line. */
    method HandleUnsolicited(line: string)
      modifies this`unsolicited
      ensures unsolicited == old(unsolicited) + [line]
    {
      unsolicited := unsolicited + [line];
    }

    method HandleFinalResponse(line: string, success: bool)
      requires response != null
      modifies response`success, response`final
      ensures response.success == success && response.final == Some(line)
    {
      response.success := success;
      response.final := Some(line);
    }

    method ProcessLine(line: string)
      requires Valid()
      modifies this`unsolicited, this`prompted, this`smsPDU, response
      ensures Valid() && response == old(response)
      ensures View() == AtTransaction.ProcessLine(old(View()), line)
    {
      if response == null {
        HandleUnsolicited(line);
        return;
      }
      var success := IsFinalResponse(line, FINAL_SUCCESSES);
      var error := IsFinalResponse(line, FINAL_ERRORS);
      if success {
        HandleFinalResponse(line, true);
      } else if error {
        HandleFinalResponse(line, false);
      } else if smsPDU.Some? && line == "> " {
        prompted := prompted + [smsPDU.value];
        smsPDU := None;
      } else {
        ProcessByType(line);
      }
    }

    /** The switch on the command type. */
    method ProcessByType(line: string)
      requires Valid() && response != null && !IsFinal(line) && !(smsPDU.Some? && line == "> ")
      modifies this`unsolicited, response`intermediates, response`nodes
      ensures Valid() && View() == AtTransaction.ProcessLine(old(View()), line)
    {
      var starts := StrStartsWith(line, responsePrefix);
      if kind == NoResult {
        HandleUnsolicited(line);
      } else if kind == Numeric {
        if response.intermediates == null && StartsWithDigit(line) {
          response.AddIntermediate(line);
        } else {
          HandleUnsolicited(line);
        }
      } else if kind == SingleLine {
        if response.intermediates == null && starts {
          response.AddIntermediate(line);
        } else {
          HandleUnsolicited(line);
        }
      } else if starts || ':' !in line {
        response.AddIntermediate(line);
      } else {
        HandleUnsolicited(line);
      }
    }

    method ClearPendingCommand()
      modifies this`response, this`responsePrefix, this`smsPDU
      ensures response == null && Valid() && View() == old(View()).(pending := None)
    {
      response, responsePrefix, smsPDU := null, "", None;
    }

    /** at_send_command_full_nolock up to its wait loop; `written` is the result of writeline. */
    method Issue(command: Command, written: bool) returns (err: Option<Result>)
      requires Valid()
      modifies this
      ensures Valid()
      ensures err == if old(response) != null then Some(CommandPending)
                     else if written then None else Some(WriteFailed)
      ensures View() == old(View()).(pending := if err.None? then Some(Begin(command)) else None)
    {
      if response != null {
        ClearPendingCommand();
        return Some(CommandPending);
      }
      kind, responsePrefix, smsPDU := command.kind, command.prefix, command.pdu;
      response := new ATResponse();
      if !written {
        ClearPendingCommand();
        return Some(WriteFailed);
      }
      err := None;
    }

    /** ... and from there on, once a final response is there. */
    method Collect() returns (out: ATResponse)
      requires Valid() && response != null && response.final.Some?
      modifies this`response, this`responsePrefix, this`smsPDU
      modifies response`intermediates, response`nodes, (set n | n in response.nodes)`next
      ensures Valid() && View() == old(View()).(pending := None)
      ensures out == old(response) && out.Valid()
      ensures var p := old(View()).pending.value;
        out.success == p.success && out.final == p.final && LinesOf(out.nodes) == Reversed(p.lines)
    {
      out := response;
      out.ReverseIntermediates();
      ClearPendingCommand();
    }
  }

  lemma ReversedLines(nodes: seq<ATLine>)
    ensures LinesOf(Reversed(nodes)) == Reversed(LinesOf(nodes))
  {
  }

  // ---------- the pool of channels ----------

  const CHANNELS_PER_SIM := 3  // D_AT_CHANNEL_OFFSET
  const SINGLE_CHANNELS := 4   // S_MAX_AT_CHANNELS

  /** s_channelInfo, for one SIM or for two. */
  class ChannelPool {
    const sims: nat
    const busy: array<bool>

    predicate Valid() {
      (sims == 1 && busy.Length == SINGLE_CHANNELS) || (sims == 2 && busy.Length == 2 * CHANNELS_PER_SIM)
    }

    function First(socket: nat): nat {
      if sims >= 2 then socket * CHANNELS_PER_SIM + 1 else 1
    }

    function Last(socket: nat): nat {
      if sims >= 2 then (socket + 1) * CHANNELS_PER_SIM else SINGLE_CHANNELS
    }

    /** getSocketIdByChannelID */
    function SocketOf(channel: int): nat {
      if sims >= 2 && 3 <= channel <= 5 then 1 else 0
    }

    /** The channels that carry only unsolicited results. */
    predicate IsUrcChannel(channel: int) {
      channel == 0 || (sims >= 2 && channel == CHANNELS_PER_SIM)
    }

    /** One pass of getChannel over the channels of a SIM: the first idle one is taken. It is no
        channel for unsolicited results, and getSocketIdByChannelID gives its SIM back. */
    method GetChannel(socket: int) returns (channel: int)
      requires Valid()
      modifies busy
      ensures channel == -1 || 0 <= channel < busy.Length
      ensures channel >= 0 ==>
        && 0 <= socket < sims && SocketOf(channel) == socket && !IsUrcChannel(channel)
        && !old(busy[channel]) && busy[..] == old(busy[..])[channel := true]
        && forall c :: First(socket) <= c < channel ==> busy[c]
      ensures channel == -1 ==> busy[..] == old(busy[..])
      ensures channel == -1 && 0 <= socket < sims ==>
        forall c :: First(socket) <= c < Last(socket) ==> busy[c]
    {
      if socket < 0 || socket >= sims {
        return -1;
      }
      channel := First(socket);
      while channel < Last(socket)
        invariant First(socket) <= channel <= Last(socket)
        invariant forall c :: First(socket) <= c < channel ==> busy[c]
      {
        if !busy[channel] {
          busy[channel] := true;
          return;
        }
        channel := channel + 1;
      }
      channel := -1;
    }

    /** putChannel: it does not ask who holds the channel. */
    method PutChannel(channel: int)
      requires Valid()
      modifies busy
      ensures busy[..] ==
        if 1 <= channel < busy.Length then old(busy[..])[channel := false] else old(busy[..])
    {
      if channel < 1 || channel >= busy.Length || !busy[channel] {
        return;
      }
      busy[channel] := false;
    }

    /** Two SIMs share no channel, and each channel is within a SIM's range or carries results only. */
    lemma EachChannelHasOneSim(channel: int)
      requires Valid() && 0 <= channel < busy.Length
      ensures SocketOf(channel) < sims
      ensures forall socket: nat :: socket < sims ==>
        (First(socket) <= channel < Last(socket) <==> socket == SocketOf(channel) && !IsUrcChannel(channel))
    {
      forall socket: nat | socket < sims
        ensures First(socket) <= channel < Last(socket) <==> socket == SocketOf(channel) && !IsUrcChannel(channel)
      {
        assert socket == 0 || socket == 1;
      }
    }
  }
}
