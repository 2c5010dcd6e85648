/** SMS prompts in the buffer of an AT channel (sprd-ril/atchannel.c): how an earlier line comes back after
    one, and how the cursor leaves the array. */
module AtStale {
  import opened AtBuffer
  import opened AtLines
  import opened AtPrompt
  import opened Options

  const CRLF := "\r\n"

  /** A line the way the modem sends it. */
  function Sent(line: string): string {
    CRLF + line + CRLF
  }

  const SENT_PROMPT := CRLF + PROMPT

  predicate IsLine(line: string) {
    line != "" && NUL !in line && NoEol(line, 0, |line|) && |line| < MAX_AT_RESPONSE / 4
  }

  /** Everything that was in the buffer has been handed out. */
  predicate IsConsumed(b: Buffer) {
    IsInside(b) && SkipRun(TextOf(b)) == ""
  }

  /** One read into it. */
  lemma OneRead(b: Buffer, x: string)
    requires IsConsumed(b) && x != "" && NUL !in x && |x| <= MAX_AT_RESPONSE
    ensures CanCall(b, [x]) && Searched(b, [x]) == Buffer(Overwritten(b.cells, x), 0)
    ensures TextOf(Searched(b, [x])) == x
  {
    PreparedText(b);
    var (c, none) := (Prepared(b), []);
    assert [x][..0] == none && "" + x == x;
    assert CanReadAll(c, none) && AfterReads(c, none) == c;
    assert Overwritten(c, x) == Overwritten(b.cells, x);
    OverwrittenText(b.cells, x);
  }

  lemma SkipCrLf(s: string, t: string)
    requires s == CRLF + t && (t == "" || !IsEol(t[0]))
    ensures SkipRun(s) == t && RunLength(s) == 2
  {
    RunLengthIs(s, 2);
    assert s[2..] == t;
  }

  /** A line with what follows it. */
  lemma LineThenMore(t: string, line: string, e: char, c: string)
    requires t == line + [e] + c && line != "" && NoEol(line, 0, |line|) && IsEol(e)
    ensures LineLength(t) == |line| && t[..|line|] == line && t[|line| + 1..] == c && t[0] == line[0]
    ensures t != PROMPT
  {
    LineLengthIs(t, |line|);
    LineLengthIs(PROMPT, 2);
  }

  lemma SentIs(line: string)
    requires IsLine(line)
    ensures Sent(line) == CRLF + (line + ['\r'] + "\n") && NUL !in Sent(line) && |Sent(line)| == |line| + 4
  {
  }

  /** The cells after a line that was read alone and handed out. */
  function Consumed(c: Cells, line: string): (d: Cells)
    requires IsLine(line)
    ensures d[|line| + 2] == NUL && d[|line| + 3] == '\n' && d[|line| + 4] == NUL
    ensures forall k :: 2 <= k < |line| + 2 ==> d[k] == line[k - 2]
  {
    Overwritten(c, Sent(line))[|line| + 2 := NUL]
  }

  lemma LineOfSent(line: string, x: string)
    requires IsLine(line) && x == Sent(line)
    ensures RunLength(x) == 2 && SkipRun(x) != PROMPT && NextEol(SkipRun(x)) == Some(|line|)
    ensures FirstLine(x) == line && Left(x) == "\n"
  {
    SentIs(line);
    var t := line + ['\r'] + "\n";
    SkipCrLf(x, t);
    LineThenMore(t, line, '\r', "\n");
  }

  lemma SentIsSearched(b: Buffer, line: string)
    requires IsConsumed(b) && IsLine(line)
    ensures CanCall(b, [Sent(line)])
    ensures var s := Searched(b, [Sent(line)]);
      && s == Buffer(Overwritten(b.cells, Sent(line)), 0) && TextOf(s) == Sent(line)
      && HasLine(s) && EolOf(s) == |line| + 2
  {
    SentIs(line);
    LineOfSent(line, Sent(line));
    OneRead(b, Sent(line));
  }

  /** The line is handed out, and its last newline is left. */
  lemma SentIsHeard(b: Buffer, line: string)
    requires IsConsumed(b) && IsLine(line)
    ensures CanCall(b, [Sent(line)])
    ensures var (heard, after) := Call(b, [Sent(line)]);
      heard == Some(line) && after == Buffer(Consumed(b.cells, line), |line| + 3) && TextOf(after) == "\n"
  {
    SentIsSearched(b, line);
    LineOfSent(line, Sent(line));
    CutLeaves(Searched(b, [Sent(line)]));
  }

  lemma NewlineIsConsumed(b: Buffer)
    requires IsInside(b) && TextOf(b) == "\n"
    ensures IsConsumed(b)
  {
    RunLengthIs("\n", 1);
  }

  lemma LongTail(d: Cells, line: string)
    requires IsLine(line) && |line| >= 3 && d[|line| + 2] == NUL
    requires forall k :: 2 <= k < |line| + 2 ==> d[k] == line[k - 2]
    ensures TextAt(d, 5) == line[3..] && SkipRun(line[3..]) == line[3..]
  {
    TextEnds(d, 5, |line| + 2);
    assert d[5..|line| + 2] == line[3..];
    assert |line| > 3 ==> line[3..][0] == line[3];
    RunLengthIs(line[3..], 0);
  }

  lemma OneNewline(d: Cells)
    requires d[5] == '\n' && d[6] == NUL
    ensures SkipRun(TextAt(d, 5)) == ""
  {
    TextEnds(d, 5, 6);
    NewlineIsConsumed(Buffer(d, 5));
  }

  /** The cells from the fifth on, after a line. */
  lemma BehindThePrompt(c: Cells, line: string)
    requires IsLine(line)
    ensures SkipRun(TextAt(Consumed(c, line), 5)) == if |line| > 3 then line[3..] else ""
  {
    if |line| >= 3 {
      LongTail(Consumed(c, line), line);
    } else if |line| == 2 {
      OneNewline(Consumed(c, line));
    }
  }

  lemma PromptIsRead(b: Buffer)
    requires IsConsumed(b)
    ensures CanCall(b, [SENT_PROMPT]) && IsPrompted(b, [SENT_PROMPT]) && !HasLine(b)
    ensures Call(b, [SENT_PROMPT]) == (Some(PROMPT), Buffer(Overwritten(b.cells, SENT_PROMPT), 5))
  {
    OneRead(b, SENT_PROMPT);
    SkipCrLf(SENT_PROMPT, PROMPT);
    PromptLeaves(Searched(b, [SENT_PROMPT]));
  }

  /** A prompt after a line: what of the line is left behind the prompt's NUL, and when nothing is. */
  lemma PromptLeavesTail(b: Buffer, line: string)
    requires IsConsumed(b) && IsLine(line)
    ensures CanCall(b, [Sent(line)])
    ensures var (heard, b1) := Call(b, [Sent(line)]);
      && heard == Some(line) && CanCall(b1, [SENT_PROMPT])
      && var (prompt, b2) := Call(b1, [SENT_PROMPT]);
         && prompt == Some(PROMPT) && IsInside(b2)
         && SkipRun(TextOf(b2)) == (if |line| > 3 then line[3..] else "")
         && (LeavesNothing(b1, [SENT_PROMPT]) <==> |line| <= 3)
  {
    SentIsHeard(b, line);
    var b1 := Call(b, [Sent(line)]).1;
    NewlineIsConsumed(b1);
    PromptIsRead(b1);
    SameBehind(Overwritten(b1.cells, SENT_PROMPT), b1.cells, 5);
    BehindThePrompt(b.cells, line);
  }

  lemma ReadBehindText(b: Buffer, text: string, x: string)
    requires IsInside(b) && SkipRun(TextOf(b)) == text && IsLine(text) && text != PROMPT
    requires x != "" && NUL !in x && |x| <= MAX_AT_RESPONSE / 2
    ensures CanCall(b, [x]) && !HasLine(b) && TextOf(Searched(b, [x])) == text + x
  {
    LineLengthIs(text, |text|);
    PreparedText(b);
    ReadBehind(Prepared(b), text, x);
  }

  lemma CutFirst(b: Buffer, text: string, rest: string)
    requires IsInside(b) && TextOf(b) == text + ['\r'] + rest && IsLine(text)
    ensures HasLine(b) && FirstLine(TextOf(b)) == text && IsInside(CutBehind(b)) && TextOf(CutBehind(b)) == rest
  {
    LineThenMore(TextOf(b), text, '\r', rest);
    RunLengthIs(TextOf(b), 0);
    CutLeaves(b);
  }

  lemma SentBehindText(text: string, line: string)
    ensures text + Sent(line) == text + ['\r'] + ("\n" + line + CRLF)
  {
  }

  lemma TextComesFirst(b: Buffer, text: string, line: string, x: string)
    requires IsInside(b) && SkipRun(TextOf(b)) == text && IsLine(text) && text != PROMPT
    requires IsLine(line) && x == Sent(line)
    ensures CanCall(b, [x])
    ensures var (heard, b1) := Call(b, [x]);
      heard == Some(text) && IsInside(b1) && TextOf(b1) == "\n" + line + CRLF
  {
    SentIs(line);
    ReadBehindText(b, text, x);
    SentBehindText(text, line);
    CutFirst(Searched(b, [x]), text, "\n" + line + CRLF);
  }

  lemma LineWaits(b: Buffer, line: string)
    requires IsInside(b) && TextOf(b) == "\n" + line + CRLF && IsLine(line)
    ensures CanCall(b, []) && Call(b, []).0 == Some(line)
  {
    var (text, t) := (TextOf(b), line + ['\r'] + "\n");
    LineThenMore(t, line, '\r', "\n");
    assert text[1..] == t && text[1] == line[0];
    RunLengthIs(text, 1);
  }

  /** The next line a modem sends when a text without a newline is in the buffer. */
  lemma TextIsHeard(b: Buffer, text: string, line: string)
    requires IsInside(b) && SkipRun(TextOf(b)) == text && IsLine(text) && text != PROMPT && IsLine(line)
    ensures CanCall(b, [Sent(line)])
    ensures var (heard, b1) := Call(b, [Sent(line)]);
      heard == Some(text) && CanCall(b1, []) && Call(b1, []).0 == Some(line)
  {
    TextComesFirst(b, text, line, Sent(line));
    LineWaits(Call(b, [Sent(line)]).1, line);
  }

  // ---------- a line that comes back ----------

  lemma NotGoingOn(t: string, line: string, e: char, c: string)
    requires t == line + [e] + c && line != "" && IsEol(e) && (line[0] != '>' || line == PROMPT)
    ensures !GoesOnAfterPrompt(t)
  {
    assert t[0] == line[0] && t[|line|] == e;
    if |t| > 2 {
      assert t[..2][0] == t[0];
    }
  }

  /** The first line of a stream that does not begin like a prompt, or is one. */
  lemma FirstOfStream(s: string, line: string, e: char, c: string)
    requires SkipRun(s) == line + [e] + c && line != "" && NoEol(line, 0, |line|) && IsEol(e)
    requires line[0] != '>' || line == PROMPT
    ensures Lines(s) == [line] + Lines(c) && (Unambiguous(c) ==> Unambiguous(s))
  {
    var t := SkipRun(s);
    LineThenMore(t, line, e, c);
    NotGoingOn(t, line, e, c);
    assert t + "" == t && c + "" == c;
    LineInFront(s, t, "");
    RestIsUnambiguous(s, t, "");
  }

  lemma NewlineInFront(e: char, rest: string)
    requires IsEol(e)
    ensures Lines([e] + rest) == Lines(rest) && (Unambiguous([e] + rest) <==> Unambiguous(rest))
  {
    var c := [e] + rest;
    assert c[1..] == rest;
    DropFromRun(c, 1);
    SkippedLines(c, rest);
    if Unambiguous(c) {
      SkippedAmbiguity(c, rest);
    } else if Unambiguous(rest) {
      SkippedAmbiguity(rest, c);
    }
  }

  lemma SentComesFirst(line: string, c: string)
    requires IsLine(line) && line[0] != '>'
    ensures Lines(Sent(line) + c) == [line] + Lines(c) && (Unambiguous(c) ==> Unambiguous(Sent(line) + c))
  {
    var (s, t) := (Sent(line) + c, line + ['\r'] + (['\n'] + c));
    assert s == CRLF + t && t[0] == line[0];
    SkipCrLf(s, t);
    FirstOfStream(s, line, '\r', ['\n'] + c);
    NewlineInFront('\n', c);
  }

  lemma PromptComesFirst(e: char, rest: string)
    requires IsEol(e)
    ensures var (s, c) := (SENT_PROMPT + ([e] + rest), [e] + rest);
      Lines(s) == [PROMPT] + Lines(c) && (Unambiguous(c) ==> Unambiguous(s))
  {
    var (s, t) := (SENT_PROMPT + ([e] + rest), PROMPT + [e] + rest);
    assert s == CRLF + t;
    SkipCrLf(s, t);
    FirstOfStream(s, PROMPT, e, rest);
    NewlineInFront(e, rest);
  }

  lemma NoLines()
    ensures Lines("") == [] && Unambiguous("")
  {
    NoLineYet("");
  }

  lemma LastLine(answer: string)
    requires IsLine(answer) && answer[0] != '>'
    ensures Unambiguous(Sent(answer)) && Lines(Sent(answer)) == [answer]
  {
    NoLines();
    assert Sent(answer) + "" == Sent(answer);
    SentComesFirst(answer, "");
  }

  lemma PromptThenLine(answer: string, c: string)
    requires IsLine(answer) && answer[0] != '>' && c == Sent(answer)
    ensures Unambiguous(SENT_PROMPT + c) && Lines(SENT_PROMPT + c) == [PROMPT] + [answer]
  {
    LastLine(answer);
    var rest := "\n" + answer + CRLF;
    assert c == ['\r'] + rest;
    PromptComesFirst('\r', rest);
  }

  /** The stream of a line, a prompt and another line. */
  lemma LinesOfStream(line: string, answer: string)
    requires IsLine(line) && line[0] != '>' && IsLine(answer) && answer[0] != '>'
    ensures var s := Sent(line) + (SENT_PROMPT + Sent(answer));
      Unambiguous(s) && Lines(s) == [line] + ([PROMPT] + [answer])
  {
    PromptThenLine(answer, Sent(answer));
    SentComesFirst(line, SENT_PROMPT + Sent(answer));
  }

  /** The calls return these lines and leave this buffer. */
  predicate Hears(b: Buffer, gots: seq<seq<string>>, lines: seq<string>, after: Buffer) {
    CanRun(b, gots) && Heard(b, gots) == lines && AfterRun(b, gots) == after
  }

  lemma FirstCall(b: Buffer, got: seq<string>, line: string, after: Buffer)
    requires CanCall(b, got) && Call(b, got) == (Some(line), after)
    ensures Hears(b, [got], [line], after)
  {
    assert [got][..0] == [] && [] + [line] == [line];
    assert CanRun(b, [got][..0]) && AfterRun(b, [got][..0]) == b && Heard(b, [got][..0]) == [];
  }

  lemma OneMoreCall(b: Buffer, gots: seq<seq<string>>, lines: seq<string>, b1: Buffer, got: seq<string>,
                    line: string, b2: Buffer)
    requires Hears(b, gots, lines, b1) && CanCall(b1, got) && Call(b1, got) == (Some(line), b2)
    ensures Hears(b, gots + [got], lines + [line], b2)
  {
    RunGoesOn(b, gots, got, "");
  }

  lemma Tail(line: string)
    requires IsLine(line) && |line| > 3
    ensures IsLine(line[3..])
  {
    assert forall k :: 0 <= k < |line| - 3 ==> line[3..][k] == line[k + 3];
  }

  /** A line of four characters or more comes back, without its first three, as a line of its own between
      the prompt and the answer: "+CREG: 1" as "EG: 1". The stream has no such line (LinesOfStream). */
  lemma LineComesBack(b: Buffer, line: string, answer: string) returns (after: Buffer)
    requires IsConsumed(b) && IsLine(line) && IsLine(answer) && |line| > 3 && line[3..] != PROMPT
    ensures Hears(b, [[Sent(line)]] + [[SENT_PROMPT]] + [[Sent(answer)]] + [[]],
                  [line] + [PROMPT] + [line[3..]] + [answer], after)
  {
    Tail(line);
    PromptLeavesTail(b, line);
    var b1 := Call(b, [Sent(line)]).1;
    var b2 := Call(b1, [SENT_PROMPT]).1;
    TextIsHeard(b2, line[3..], answer);
    var b3 := Call(b2, [Sent(answer)]).1;
    after := Call(b3, []).1;
    FourCalls(b, [Sent(line)], [SENT_PROMPT], [Sent(answer)], [], line, PROMPT, line[3..], answer, b1, b2, b3, after);
  }

  lemma FourCalls(b: Buffer, g1: seq<string>, g2: seq<string>, g3: seq<string>, g4: seq<string>,
                  l1: string, l2: string, l3: string, l4: string, b1: Buffer, b2: Buffer, b3: Buffer, b4: Buffer)
    requires CanCall(b, g1) && Call(b, g1) == (Some(l1), b1) && CanCall(b1, g2) && Call(b1, g2) == (Some(l2), b2)
    requires CanCall(b2, g3) && Call(b2, g3) == (Some(l3), b3) && CanCall(b3, g4) && Call(b3, g4) == (Some(l4), b4)
    ensures Hears(b, [g1] + [g2] + [g3] + [g4], [l1] + [l2] + [l3] + [l4], b4)
  {
    FirstCall(b, g1, l1, b1);
    OneMoreCall(b, [g1], [l1], b1, g2, l2, b2);
    OneMoreCall(b, [g1] + [g2], [l1] + [l2], b2, g3, l3, b3);
    OneMoreCall(b, [g1] + [g2] + [g3], [l1] + [l2] + [l3], b3, g4, l4, b4);
  }

  // ---------- a cursor behind the array ----------

  /** One read brings a line and a prompt. */
  lemma LineAndPrompt(b: Buffer, line: string, x: string)
    requires IsConsumed(b) && NUL !in line && line != "" && NoEol(line, 0, |line|)
    requires x == line + ['\r'] + PROMPT && |x| <= MAX_AT_RESPONSE
    ensures CanCall(b, [x])
    ensures var (heard, after) := Call(b, [x]);
      heard == Some(line) && after.cur == |line| + 1 && IsInside(after) && TextOf(after) == PROMPT
  {
    OneRead(b, x);
    LineThenMore(x, line, '\r', PROMPT);
    RunLengthIs(x, 0);
    CutLeaves(Searched(b, [x]));
  }

  lemma PromptWaits(b: Buffer)
    requires IsInside(b) && TextOf(b) == PROMPT
    ensures CanCall(b, []) && Call(b, []) == (Some(PROMPT), Buffer(b.cells, b.cur + 3))
  {
    RunLengthIs(PROMPT, 0);
    PromptLeaves(b);
  }

  /** One read that fills the buffer, with a prompt at its end: after the line and the prompt the cursor
      is behind the array, where the next call looks for the text. */
  lemma CursorLeaves(b: Buffer, line: string) returns (after: Buffer)
    requires IsConsumed(b) && NUL !in line && NoEol(line, 0, |line|) && |line| == MAX_AT_RESPONSE - 3
    ensures Hears(b, [[line + ['\r'] + PROMPT]] + [[]], [line] + [PROMPT], after) && !IsInside(after)
  {
    var x := line + ['\r'] + PROMPT;
    LineAndPrompt(b, line, x);
    var b1 := Call(b, [x]).1;
    PromptWaits(b1);
    after := Call(b1, []).1;
    FirstCall(b, [x], line, b1);
    OneMoreCall(b, [[x]], [line], b1, [], PROMPT, after);
  }
}
