/** AT commands and their responses (sprd-ril/atchannel.c), and the channels they are sent on
    (libril_threads/request_threads.c). The reader thread processes one line at a time under the
    channel mutex; a command thread gives that mutex up only while it waits. */
module AtTransaction {
  import AtLines
  import opened Options

  datatype Kind = NoResult | Numeric | SingleLine | MultiLine

  datatype Command = Command(kind: Kind, prefix: string, pdu: Option<string>)

  /** sp_response with the command fields of the channel; `lines` has the newest line first. */
  datatype Pending = Pending(command: Command, success: bool, final: Option<string>, lines: seq<string>)

  /** `unsolicited` and `prompted` are histories: the handler's lines, and the PDUs written out. */
  datatype Channel = Channel(pending: Option<Pending>, unsolicited: seq<string>, prompted: seq<string>)

  const FINAL_ERRORS := ["ERROR", "+CMS ERROR:", "+CME ERROR:", "NO CARRIER", "NO ANSWER", "NO DIALTONE"]
  const FINAL_SUCCESSES := ["OK", "CONNECT"]

  predicate StartsWithOneOf(line: string, table: seq<string>) {
    exists i :: 0 <= i < |table| && table[i] <= line
  }

  predicate IsSuccess(line: string) {
    StartsWithOneOf(line, FINAL_SUCCESSES)
  }

  predicate IsFinal(line: string) {
    IsSuccess(line) || StartsWithOneOf(line, FINAL_ERRORS)
  }

  predicate StartsWithDigit(line: string) {
    line != "" && '0' <= line[0] <= '9'
  }

  // ---------- processLine ----------

  datatype Dest = ToHandler | ToFinal | ToPrompt | ToAnswer

  function Route(p: Pending, line: string): Dest {
    if IsFinal(line) then ToFinal
    else if p.command.pdu.Some? && line == AtLines.PROMPT then ToPrompt
    else match p.command.kind
      case NoResult => ToHandler
      case Numeric => if p.lines == [] && StartsWithDigit(line) then ToAnswer else ToHandler
      case SingleLine => if p.lines == [] && p.command.prefix <= line then ToAnswer else ToHandler
      case MultiLine => if p.command.prefix <= line || ':' !in line then ToAnswer else ToHandler
  }

  function Accept(p: Pending, line: string): Pending {
    match Route(p, line)
    case ToFinal => p.(success := IsSuccess(line), final := Some(line))
    case ToPrompt => p.(command := p.command.(pdu := None))
    case ToAnswer => p.(lines := [line] + p.lines)
    case ToHandler => p
  }

  function ProcessLine(c: Channel, line: string): Channel {
    if c.pending.None? then c.(unsolicited := c.unsolicited + [line])
    else
      var p := c.pending.value;
      var d := c.(pending := Some(Accept(p, line)));
      match Route(p, line)
      case ToHandler => d.(unsolicited := c.unsolicited + [line])
      case ToPrompt => d.(prompted := c.prompted + [p.command.pdu.value])
      case _ => d
  }

  function Begin(command: Command): Pending {
    Pending(command, false, None, [])
  }

  /** The lines processed while one command is pending. */
  function Gather(p: Pending, ls: seq<string>): Pending {
    if ls == [] then p else Accept(Gather(p, ls[..|ls| - 1]), ls[|ls| - 1])
  }

  // ---------- what a command is answered, told from the lines alone ----------

  /** The first prompt is taken away if there is a PDU to send. */
  function WithoutPrompt(pdu: bool, ls: seq<string>): seq<string> {
    if ls == [] then []
    else if pdu && ls[0] == AtLines.PROMPT then ls[1..]
    else [ls[0]] + WithoutPrompt(pdu, ls[1..])
  }

  predicate Fits(command: Command, line: string) {
    !IsFinal(line) &&
    match command.kind
    case NoResult => false
    case Numeric => StartsWithDigit(line)
    case SingleLine => command.prefix <= line
    case MultiLine => command.prefix <= line || ':' !in line
  }

  function Fitting(command: Command, ls: seq<string>): seq<string> {
    if ls == [] then []
    else (if Fits(command, ls[0]) then [ls[0]] else []) + Fitting(command, ls[1..])
  }

  predicate OneLine(kind: Kind) {
    kind == Numeric || kind == SingleLine
  }

  /** The lines that answer a command, in arrival order. */
  function Answer(command: Command, ls: seq<string>): seq<string> {
    var all := Fitting(command, WithoutPrompt(command.pdu.Some?, ls));
    if OneLine(command.kind) && all != [] then [all[0]] else all
  }

  function LastFinal(ls: seq<string>): (r: Option<string>)
    ensures r.Some? ==> r.value in ls && IsFinal(r.value)
    ensures r.None? <==> forall l :: l in ls ==> !IsFinal(l)
  {
    if ls == [] then None
    else if IsFinal(ls[|ls| - 1]) then Some(ls[|ls| - 1])
    else LastFinal(ls[..|ls| - 1])
  }

  function Reversed<T>(s: seq<T>): (r: seq<T>)
    ensures |r| == |s| && forall i :: 0 <= i < |s| ==> r[i] == s[|s| - 1 - i]
  {
    seq(|s|, i requires 0 <= i < |s| => s[|s| - 1 - i])
  }

  lemma {:induction false} FittingAppends(command: Command, a: seq<string>, b: seq<string>)
    ensures Fitting(command, a + b) == Fitting(command, a) + Fitting(command, b)
  {
    if a == [] {
      assert a + b == b;
    } else {
      assert (a + b)[1..] == a[1..] + b;
      FittingAppends(command, a[1..], b);
    }
  }

  lemma {:induction false} PromptAppends(pdu: bool, a: seq<string>, line: string)
    ensures WithoutPrompt(pdu, a + [line]) ==
      if pdu && line == AtLines.PROMPT && AtLines.PROMPT !in a then a else WithoutPrompt(pdu, a) + [line]
    ensures !pdu || AtLines.PROMPT !in a ==> WithoutPrompt(pdu, a) == a
  {
    if a != [] {
      assert (a + [line])[1..] == a[1..] + [line];
      PromptAppends(pdu, a[1..], line);
      assert a == [a[0]] + a[1..];
    }
  }

  /** After any lines, the pending response holds exactly the answer, newest line first, and the
      last final line with the success it stands for; the PDU has been sent iff a prompt came. */
  lemma {:induction false} GatherIsAnswer(command: Command, ls: seq<string>)
    ensures var p := Gather(Begin(command), ls);
      && Reversed(p.lines) == Answer(command, ls)
      && p.final == LastFinal(ls)
      && p.success == (LastFinal(ls).Some? && IsSuccess(LastFinal(ls).value))
      && p.command == (if AtLines.PROMPT in ls then command.(pdu := None) else command)
  {
    if ls != [] {
      var front, line := ls[..|ls| - 1], ls[|ls| - 1];
      assert ls == front + [line];
      GatherIsAnswer(command, front);
      GatherStep(command, front, line);
    }
  }

  lemma PromptIsNotFinal()
    ensures !IsFinal(AtLines.PROMPT)
  {
    assert AtLines.PROMPT[0] == '>';
  }

  /** `p` is what the lines `ls` make of a command, apart from its final line. */
  predicate Holds(command: Command, ls: seq<string>, p: Pending) {
    && Reversed(p.lines) == Answer(command, ls)
    && p.command == (if AtLines.PROMPT in ls then command.(pdu := None) else command)
  }

  lemma GatherStep(command: Command, front: seq<string>, line: string)
    requires Holds(command, front, Gather(Begin(command), front))
    ensures Holds(command, front + [line], Accept(Gather(Begin(command), front), line))
  {
    var p := Gather(Begin(command), front);
    if p.command.pdu.Some? && line == AtLines.PROMPT {
      PromptStep(command, front, p);
    } else {
      LineStep(command, front, p, line);
    }
  }

  lemma PromptStep(command: Command, front: seq<string>, p: Pending)
    requires Holds(command, front, p) && p.command.pdu.Some?
    ensures Holds(command, front + [AtLines.PROMPT], Accept(p, AtLines.PROMPT))
  {
    PromptIsNotFinal();
    PromptAppends(true, front, AtLines.PROMPT);
  }

  lemma FittingOne(command: Command, all: seq<string>, line: string)
    ensures Fitting(command, all + [line]) ==
      Fitting(command, all) + if Fits(command, line) then [line] else []
  {
    FittingAppends(command, all, [line]);
    assert Fitting(command, [line][1..]) == [];
  }

  lemma LineStep(command: Command, front: seq<string>, p: Pending, line: string)
    requires Holds(command, front, p) && !(p.command.pdu.Some? && line == AtLines.PROMPT)
    ensures Holds(command, front + [line], Accept(p, line))
  {
    var rest := WithoutPrompt(command.pdu.Some?, front);
    assert WithoutPrompt(command.pdu.Some?, front + [line]) == rest + [line] by {
      PromptAppends(command.pdu.Some?, front, line);
    }
    FittingOne(command, rest, line);
    AnswerStep(command, p, Fitting(command, rest), line);
    assert AtLines.PROMPT in front + [line] <==> AtLines.PROMPT in front || line == AtLines.PROMPT;
  }

  lemma AcceptedLines(p: Pending, line: string)
    requires !(p.command.pdu.Some? && line == AtLines.PROMPT)
    ensures Accept(p, line).command == p.command
    ensures Accept(p, line).lines ==
      if Fits(p.command, line) && (OneLine(p.command.kind) ==> p.lines == []) then [line] + p.lines else p.lines
  {
  }

  /** One more line on top of an answer: taken, or not because it does not fit or one has been taken. */
  lemma OneMoreAnswer(one: bool, fits: bool, lines: seq<string>, all: seq<string>, line: string)
    requires Reversed(lines) == if one && all != [] then [all[0]] else all
    ensures var next := all + if fits then [line] else [];
      Reversed(if fits && (one ==> lines == []) then [line] + lines else lines)
        == if one && next != [] then [next[0]] else next
  {
    assert lines == [] <==> all == [];
    assert Reversed([line] + lines) == Reversed(lines) + [line];
    assert all + [] == all;
  }

  lemma AnswerStep(command: Command, p: Pending, all: seq<string>, line: string)
    requires p.command == command || p.command == command.(pdu := None)
    requires !(p.command.pdu.Some? && line == AtLines.PROMPT)
    requires Reversed(p.lines) == if OneLine(command.kind) && all != [] then [all[0]] else all
    ensures var next := all + if Fits(command, line) then [line] else [];
      && Accept(p, line).command == p.command
      && Reversed(Accept(p, line).lines) == if OneLine(command.kind) && next != [] then [next[0]] else next
  {
    AcceptedLines(p, line);
    OneMoreAnswer(OneLine(command.kind), Fits(command, line), p.lines, all, line);
  }

  /** The channel after some lines. */
  function Process(c: Channel, ls: seq<string>): Channel {
    if ls == [] then c else ProcessLine(Process(c, ls[..|ls| - 1]), ls[|ls| - 1])
  }

  function Finals(ls: seq<string>): seq<string> {
    if ls == [] then []
    else Finals(ls[..|ls| - 1]) + if IsFinal(ls[|ls| - 1]) then [ls[|ls| - 1]] else []
  }

  /** The prompts among the lines that were answered with the PDU: the first, if there was one. */
  function Prompts(command: Command, ls: seq<string>): multiset<string> {
    if command.pdu.Some? && AtLines.PROMPT in ls then multiset{AtLines.PROMPT} else multiset{}
  }

  /** What goes to the unsolicited handler, the answer, the final lines and the prompt. */
  ghost predicate Shared(command: Command, ls: seq<string>, handled: seq<string>, p: Pending) {
    && multiset(handled) + multiset(p.lines) + multiset(Finals(ls)) + Prompts(command, ls) == multiset(ls)
    && p.command == (if AtLines.PROMPT in ls then command.(pdu := None) else command)
  }

  function Once(line: string, taken: bool): multiset<string> {
    if taken then multiset{line} else multiset{}
  }

  lemma FinalsOneMore(front: seq<string>, line: string)
    ensures multiset(front + [line]) == multiset(front) + multiset{line}
    ensures multiset(Finals(front + [line])) ==
      multiset(Finals(front)) + Once(line, IsFinal(line))
  {
    var ls := front + [line];
    assert ls[..|ls| - 1] == front && ls[|ls| - 1] == line;
    assert Finals(front) + [] == Finals(front);
  }

  lemma AnsweredOnce(p: Pending, line: string)
    ensures multiset(Accept(p, line).lines) == multiset(p.lines) + Once(line, Route(p, line).ToAnswer?)
  {
    if Route(p, line).ToAnswer? {
      assert multiset([line] + p.lines) == multiset{line} + multiset(p.lines);
    }
  }

  lemma PromptedOnce(command: Command, front: seq<string>, line: string, p: Pending)
    requires p.command == (if AtLines.PROMPT in front then command.(pdu := None) else command)
    ensures Prompts(command, front + [line]) == Prompts(command, front) + Once(line, Route(p, line).ToPrompt?)
    ensures Accept(p, line).command == (if AtLines.PROMPT in front + [line] then command.(pdu := None) else command)
  {
    PromptIsNotFinal();
    assert AtLines.PROMPT in front + [line] <==> AtLines.PROMPT in front || line == AtLines.PROMPT;
  }

  lemma OneMoreShared(command: Command, front: seq<string>, line: string, handled: seq<string>, p: Pending)
    requires Shared(command, front, handled, p)
    ensures Shared(command, front + [line], handled + (if Route(p, line).ToHandler? then [line] else []),
                   Accept(p, line))
  {
    AnsweredOnce(p, line);
    PromptedOnce(command, front, line, p);
    FinalsOneMore(front, line);
    HandledOnce(handled, line, Route(p, line).ToHandler?);
    AddsUp(multiset(handled), multiset(p.lines), multiset(Finals(front)), Prompts(command, front), multiset(front),
           line, Route(p, line));
  }

  lemma HandledOnce(handled: seq<string>, line: string, taken: bool)
    ensures multiset(handled + (if taken then [line] else [])) == multiset(handled) + Once(line, taken)
  {
    assert handled + [] == handled;
  }

  lemma AddsUp(h: multiset<string>, a: multiset<string>, f: multiset<string>, p: multiset<string>,
               all: multiset<string>, line: string, d: Dest)
    requires h + a + f + p == all
    ensures h + Once(line, d.ToHandler?) + (a + Once(line, d.ToAnswer?)) + (f + Once(line, d.ToFinal?))
            + (p + Once(line, d.ToPrompt?)) == all + multiset{line}
  {
  }

  /** `d` is what the lines make of a channel on which a command has been begun. */
  ghost predicate Processed(c: Channel, command: Command, ls: seq<string>, d: Channel) {
    && d.pending == Some(Gather(Begin(command), ls)) && c.unsolicited <= d.unsolicited
    && Shared(command, ls, d.unsolicited[|c.unsolicited|..], d.pending.value)
    && d.prompted == c.prompted + (if command.pdu.Some? && AtLines.PROMPT in ls then [command.pdu.value] else [])
  }

  lemma OneMoreProcessed(c: Channel, command: Command, front: seq<string>, line: string, d: Channel)
    requires Processed(c, command, front, d)
    ensures Processed(c, command, front + [line], ProcessLine(d, line))
  {
    var (p, ls) := (d.pending.value, front + [line]);
    var handed := if Route(p, line).ToHandler? then [line] else [];
    OneMoreShared(command, front, line, d.unsolicited[|c.unsolicited|..], p);
    PromptIsNotFinal();
    var e := ProcessLine(d, line);
    assert ls[..|ls| - 1] == front && ls[|ls| - 1] == line;
    assert e.unsolicited == d.unsolicited + handed && e.pending == Some(Accept(p, line));
    assert e.unsolicited[|c.unsolicited|..] == d.unsolicited[|c.unsolicited|..] + handed;
    PromptsWritten(c, command, front, line, d);
  }

  lemma PromptsWritten(c: Channel, command: Command, front: seq<string>, line: string, d: Channel)
    requires Processed(c, command, front, d)
    ensures ProcessLine(d, line).prompted ==
      c.prompted + (if command.pdu.Some? && AtLines.PROMPT in front + [line] then [command.pdu.value] else [])
  {
    PromptIsNotFinal();
    assert AtLines.PROMPT in front + [line] <==> AtLines.PROMPT in front || line == AtLines.PROMPT;
    assert c.prompted + [] == c.prompted;
  }

  /** No line is lost and none goes to two places: while a command is pending the lines processed are
      those handed on as unsolicited, those of the answer, the final lines, and the prompt that the PDU
      was written for, each as often as it came. */
  lemma {:induction false} EveryLineGoesOnePlace(c: Channel, command: Command, ls: seq<string>)
    requires c.pending == Some(Begin(command))
    ensures Processed(c, command, ls, Process(c, ls))
    decreases |ls|
  {
    if ls != [] {
      var front, line := ls[..|ls| - 1], ls[|ls| - 1];
      assert ls == front + [line];
      EveryLineGoesOnePlace(c, command, front);
      OneMoreProcessed(c, command, front, line, Process(c, front));
    } else {
      assert c.unsolicited[|c.unsolicited|..] == [];
    }
  }

  // ---------- at_send_command_* ----------

  datatype Reply = Reply(success: bool, final: string, lines: seq<string>)

  datatype Result = Ok(reply: Reply) | CommandPending | Timeout | ChannelClosed | WriteFailed | InvalidResponse

  /** What the issuer should get for a command after which `heard` was processed. */
  function Expected(command: Command, heard: seq<string>): Reply
    requires LastFinal(heard).Some?
  {
    var final := LastFinal(heard).value;
    Reply(IsSuccess(final), final, Answer(command, heard))
  }

  /** The check of the singleline, numeric and sms wrappers. */
  function Checked(kind: Kind, r: Result): Result {
    if OneLine(kind) && r.Ok? && r.reply.success && r.reply.lines == [] then InvalidResponse else r
  }

  datatype Outcome = Outcome(thread: nat, command: Command, heard: seq<string>, result: Result)

  /** A channel with its ChannelInfo. `waiting` are the threads in pthread_cond_wait; the other
      fields from `owner` on are histories: who got the channel, the command last begun and the lines
      processed since. */
  datatype Slot = Slot(busy: bool, chan: Channel, waiting: set<nat>, closed: bool,
                       owner: Option<nat>, command: Command, heard: seq<string>, outcomes: seq<Outcome>)

  datatype Step =
    | GetChannel(thread: nat)
    | PutChannel(thread: nat)
    | Send(thread: nat, command: Command, written: bool)  // up to the wait, or the error exit
    | Line(line: string)                                  // processLine on the reader thread
    | Close                                               // onReaderClosed
    | Wake(thread: nat)                                   // the wait loop is left
    | GiveUp(thread: nat)                                 // ETIMEDOUT

  predicate Possible(s: Slot, e: Step) {
    match e
    case GetChannel(_) => !s.busy
    case PutChannel(_) => true
    case Send(t, _, written) => t !in s.waiting && (s.closed ==> !written)
    case Line(_) => true
    case Close => true
    case Wake(t) => t in s.waiting && s.chan.pending.Some? && (s.chan.pending.value.final.Some? || s.closed)
    case GiveUp(t) => t in s.waiting
  }

  /** Every sender holds its channel between getChannel and putChannel. */
  predicate Disciplined(s: Slot, e: Step) {
    match e
    case PutChannel(t) => s.owner == Some(t) && t !in s.waiting
    case Send(t, _, _) => s.owner == Some(t)
    case _ => true
  }

  function Finish(s: Slot, t: nat, result: Result): Slot {
    s.(chan := s.chan.(pending := None), waiting := s.waiting - {t},
       outcomes := s.outcomes + [Outcome(t, s.command, s.heard, Checked(s.command.kind, result))])
  }

  function Next(s: Slot, e: Step): Slot
    requires Possible(s, e)
  {
    match e
    case GetChannel(t) => s.(busy := true, owner := Some(t))
    case PutChannel(t) => s.(busy := false, owner := None)
    case Send(t, command, written) =>
      if s.chan.pending.Some? then
        s.(chan := s.chan.(pending := None),
           outcomes := s.outcomes + [Outcome(t, command, [], CommandPending)])
      else
        var u := s.(command := command, heard := []);
        if written then u.(chan := s.chan.(pending := Some(Begin(command))), waiting := s.waiting + {t})
        else Finish(u, t, WriteFailed)
    case Line(line) => s.(chan := ProcessLine(s.chan, line), heard := s.heard + [line])
    case Close => s.(closed := true)
    case Wake(t) =>
      var p := s.chan.pending.value;
      if s.closed then Finish(s, t, ChannelClosed)
      else Finish(s, t, Ok(Reply(p.success, p.final.value, Reversed(p.lines))))
    case GiveUp(t) => Finish(s, t, Timeout)
  }

  predicate GoodOutcome(o: Outcome) {
    && !o.result.CommandPending?
    && (o.result.Ok? ==> LastFinal(o.heard).Some? && o.result.reply == Expected(o.command, o.heard))
    && (o.result.Ok? && o.result.reply.success && OneLine(o.command.kind) ==> |o.result.reply.lines| == 1)
  }

  /** At most the owner waits, and it waits iff a response is pending; that response is what the
      lines heard since its command make of it. */
  predicate Inv(s: Slot) {
    && (s.owner.Some? <==> s.busy)
    && (s.chan.pending.Some? <==> s.waiting != {})
    && (s.waiting != {} ==> s.owner.Some? && s.waiting == {s.owner.value})
    && (s.chan.pending.Some? ==> s.chan.pending.value == Gather(Begin(s.command), s.heard))
    && forall i :: 0 <= i < |s.outcomes| ==> GoodOutcome(s.outcomes[i])
  }

  lemma LineKeepsInv(s: Slot, line: string)
    requires Inv(s)
    ensures Inv(Next(s, Line(line)))
  {
    var heard := s.heard + [line];
    assert heard[..|heard| - 1] == s.heard && heard[|heard| - 1] == line;
  }

  lemma FinishKeepsInv(s: Slot, t: nat, result: Result)
    requires Inv(s) && (s.waiting == {} || s.waiting == {t}) && !result.CommandPending?
    requires result.Ok? ==>
      && LastFinal(s.heard).Some?
      && result.reply == Expected(s.command, s.heard)
    ensures Inv(Finish(s, t, result))
  {
    var r := Finish(s, t, result);
    assert s.waiting - {t} == {};
    assert OneLine(s.command.kind) ==> |Answer(s.command, s.heard)| <= 1;
    assert GoodOutcome(r.outcomes[|s.outcomes|]);
    assert forall i :: 0 <= i < |s.outcomes| ==> r.outcomes[i] == s.outcomes[i];
  }

  lemma StepKeepsInv(s: Slot, e: Step)
    requires Inv(s) && Possible(s, e) && Disciplined(s, e)
    ensures Inv(Next(s, e))
  {
    match e
    case Line(line) => LineKeepsInv(s, line);
    case Wake(t) =>
      GatherIsAnswer(s.command, s.heard);
      var p := s.chan.pending.value;
      var result := if s.closed then ChannelClosed else Ok(Reply(p.success, p.final.value, Reversed(p.lines)));
      FinishKeepsInv(s, t, result);
    case GiveUp(t) => FinishKeepsInv(s, t, Timeout);
    case Send(t, command, written) =>
      assert s.chan.pending.None?;
      if written {
        assert Gather(Begin(command), []) == Begin(command);
      } else {
        FinishKeepsInv(s.(command := command, heard := []), t, WriteFailed);
      }
    case _ =>
  }

  // ---------- all channels, any number of threads ----------

  datatype Event = At(channel: nat, step: Step)

  ghost predicate Reaches(pool: seq<Slot>, es: seq<Event>, end: seq<Slot>)
    decreases |es|
  {
    if es == [] then pool == end
    else
      && es[0].channel < |pool|
      && Possible(pool[es[0].channel], es[0].step)
      && Disciplined(pool[es[0].channel], es[0].step)
      && Reaches(pool[es[0].channel := Next(pool[es[0].channel], es[0].step)], es[1..], end)
  }

  predicate Valid(pool: seq<Slot>) {
    forall c :: 0 <= c < |pool| ==> Inv(pool[c])
  }

  lemma {:induction false} RunKeepsInv(pool: seq<Slot>, es: seq<Event>, end: seq<Slot>)
    requires Valid(pool) && Reaches(pool, es, end)
    ensures Valid(end)
    decreases |es|
  {
    if es != [] {
      StepKeepsInv(pool[es[0].channel], es[0].step);
      RunKeepsInv(pool[es[0].channel := Next(pool[es[0].channel], es[0].step)], es[1..], end);
    }
  }

  predicate Fresh(s: Slot) {
    !s.busy && s.owner.None? && s.chan.pending.None? && s.waiting == {} && s.outcomes == []
  }

  /** If every sender holds its channel, no command ever finds another one pending. Each command
      that succeeds gets the answer its lines make, in arrival order, and a success flag that agrees
      with its final line; a successful singleline, numeric or sms command gets one line. */
  lemma DisciplinedCommandsGetTheirAnswer(pool: seq<Slot>, es: seq<Event>, end: seq<Slot>, c: nat, i: nat)
    requires (forall k :: 0 <= k < |pool| ==> Fresh(pool[k])) && Reaches(pool, es, end)
    requires c < |end| && i < |end[c].outcomes|
    ensures var o := end[c].outcomes[i];
      && o.result != CommandPending
      && (o.result.Ok? ==>
            var reply := o.result.reply;
            && LastFinal(o.heard) == Some(reply.final)
            && reply.lines == Answer(o.command, o.heard)
            && (reply.success <==> IsSuccess(reply.final))
            && (reply.success && OneLine(o.command.kind) ==> |reply.lines| == 1))
  {
    RunKeepsInv(pool, es, end);
    assert GoodOutcome(end[c].outcomes[i]);
  }

  /** ... and while its issuer waits, nobody else may send, and its response stays in place. */
  lemma WaitingOwnerIsAlone(pool: seq<Slot>, es: seq<Event>, end: seq<Slot>, c: nat, t: nat, e: Step)
    requires (forall k :: 0 <= k < |pool| ==> Fresh(pool[k])) && Reaches(pool, es, end)
    requires c < |end| && t in end[c].waiting && Possible(end[c], e) && Disciplined(end[c], e)
    ensures end[c].owner == Some(t) && end[c].chan.pending.Some?
    ensures !e.Send? && !e.PutChannel? && !e.GetChannel?
    ensures t in Next(end[c], e).waiting ==> Next(end[c], e).chan.pending.Some?
  {
    RunKeepsInv(pool, es, end);
  }

  // ---------- a command on a channel that is not held ----------

  /** After any disciplined run a command of whatever thread finds another one pending iff some thread
      waits. That one holds the channel and goes on waiting, but its response has been freed. */
  lemma FindsAnotherIff(pool: seq<Slot>, es: seq<Event>, end: seq<Slot>, c: nat, u: nat, command: Command,
                        written: bool)
    requires (forall k :: 0 <= k < |pool| ==> Fresh(pool[k])) && Reaches(pool, es, end)
    requires c < |end| && Possible(end[c], Send(u, command, written))
    ensures var (s, n) := (end[c], Next(end[c], Send(u, command, written)));
      && (n.outcomes == s.outcomes + [Outcome(u, command, [], CommandPending)] <==> s.waiting != {})
      && (s.waiting != {} ==> s.owner.Some? && s.owner != Some(u) && n.waiting == {s.owner.value} && Orphaned(n))
  {
    RunKeepsInv(pool, es, end);
    var (s, n) := (end[c], Next(end[c], Send(u, command, written)));
    if s.waiting == {} && !written {
      assert n.outcomes[|s.outcomes|].result != CommandPending;
    }
  }

  predicate Orphaned(s: Slot) {
    s.waiting != {} && s.chan.pending.None?
  }

  ghost predicate Plays(s: Slot, steps: seq<Step>, end: Slot)
    decreases |steps|
  {
    if steps == [] then s == end
    else Possible(s, steps[0]) && Plays(Next(s, steps[0]), steps[1..], end)
  }

  /** Whatever lines arrive then and whoever closes the channel: until another command is sent, a thread
      that waits for a freed response gets nothing but its timeout. */
  lemma {:induction false} OrphanTimesOut(s: Slot, steps: seq<Step>, end: Slot)
    requires s.chan.pending.None? && Plays(s, steps, end)
    requires forall k :: 0 <= k < |steps| ==> !steps[k].Send?
    ensures end.chan.pending.None? && end.waiting <= s.waiting && s.outcomes <= end.outcomes
    ensures forall i :: |s.outcomes| <= i < |end.outcomes| ==> end.outcomes[i].result == Timeout
    ensures |end.outcomes| - |s.outcomes| == |s.waiting| - |end.waiting|
    decreases |steps|
  {
    if steps != [] {
      var n := Next(s, steps[0]);
      if steps[0].GiveUp? {
        assert s.waiting == n.waiting + {steps[0].thread};
      }
      OrphanTimesOut(n, steps[1..], end);
    }
  }

  /** It happens: two threads, one of which does not ask for the channel. */
  lemma SentOnABusyChannel(s: Slot, t: nat, u: nat, command: Command, other: Command)
    requires Fresh(s) && !s.closed && t != u
    ensures
      var held := Next(s, GetChannel(t));
      && Possible(s, GetChannel(t)) && Disciplined(s, GetChannel(t))
      && Possible(held, Send(t, command, true)) && Disciplined(held, Send(t, command, true))
      && var sent := Next(held, Send(t, command, true));
         && Possible(sent, Send(u, other, true)) && !Disciplined(sent, Send(u, other, true))
         && var end := Next(sent, Send(u, other, true));
            && end.outcomes == [Outcome(u, other, [], CommandPending)]
            && end.waiting == {t} && Orphaned(end)
  {
    var held := Next(s, GetChannel(t));
    var sent := Next(held, Send(t, command, true));
    assert sent.waiting == {t} && sent.owner == Some(t);
  }
}
