/** The lines of an AT channel's stream (sprd-ril/atchannel.c), and what a reader makes of them that sees
    the stream in reads of any size. */
module AtLines {
  import opened Options

  const MAX_AT_RESPONSE := 0x1000

  predicate IsEol(c: char) {
    c == '\r' || c == '\n'
  }

  // ---------- the stream, cut into lines ----------

  /** The non-empty CR/LF-terminated segments of a text, in order; `acc` is the line so far. */
  function Segments(s: string, acc: string): seq<string> {
    if s == "" then []
    else if IsEol(s[0]) then (if acc == "" then [] else [acc]) + Segments(s[1..], "")
    else Segments(s[1..], acc + [s[0]])
  }

  /** The length of the run of CR and LF at the front. */
  function RunLength(s: string): (n: nat)
    ensures n <= |s| && forall k :: 0 <= k < n ==> IsEol(s[k])
    ensures n < |s| ==> !IsEol(s[n])
  {
    if s == "" || !IsEol(s[0]) then 0 else 1 + RunLength(s[1..])
  }

  /** The length of the text in front of the first CR or LF. */
  function LineLength(s: string): (n: nat)
    ensures n <= |s| && forall k :: 0 <= k < n ==> !IsEol(s[k])
    ensures n < |s| ==> IsEol(s[n])
  {
    if s == "" || IsEol(s[0]) then 0 else 1 + LineLength(s[1..])
  }

  function SkipRun(s: string): string {
    s[RunLength(s)..]
  }

  lemma {:induction false} RunLengthIs(s: string, n: nat)
    requires n <= |s| && forall k :: 0 <= k < n ==> IsEol(s[k])
    requires n == |s| || !IsEol(s[n])
    ensures RunLength(s) == n
  {
    if n > 0 {
      RunLengthIs(s[1..], n - 1);
    }
  }

  lemma {:induction false} LineLengthIs(s: string, n: nat)
    requires n <= |s| && forall k :: 0 <= k < n ==> !IsEol(s[k])
    requires n == |s| || IsEol(s[n])
    ensures LineLength(s) == n
  {
    if n > 0 {
      LineLengthIs(s[1..], n - 1);
    }
  }

  lemma {:induction false} SegmentsSkipRun(s: string)
    ensures Segments(SkipRun(s), "") == Segments(s, "")
  {
    if s != "" && IsEol(s[0]) {
      SegmentsSkipRun(s[1..]);
      assert SkipRun(s) == SkipRun(s[1..]);
    }
  }

  lemma {:induction false} SegmentsFirstLine(s: string, acc: string)
    ensures var n := LineLength(s);
      Segments(s, acc) == if n == |s| then []
                          else (if acc + s[..n] == "" then [] else [acc + s[..n]])
                               + Segments(s[n + 1..], "")
    decreases |s|
  {
    var n := LineLength(s);
    if s == "" {
    } else if IsEol(s[0]) {
      assert acc + s[..n] == acc && s[n + 1..] == s[1..];
    } else {
      SegmentsFirstLine(s[1..], acc + [s[0]]);
      assert acc + [s[0]] + s[1..][..n - 1] == acc + s[..n];
      if n < |s| {
        assert s[1..][n - 1 + 1..] == s[n + 1..];
      }
    }
  }

  predicate AllEol(s: string, i: nat, j: nat) {
    i <= j <= |s| && forall k :: i <= k < j ==> IsEol(s[k])
  }

  predicate NoEol(s: string, i: nat, j: nat) {
    i <= j <= |s| && forall k :: i <= k < j ==> !IsEol(s[k])
  }

  /** Every run of CR and LF together with the line after it is shorter than the buffer. */
  ghost predicate Fits(s: string) {
    forall i: nat, j: nat, k: nat :: AllEol(s, i, j) && NoEol(s, j, k) ==> k - i < MAX_AT_RESPONSE
  }

  lemma FitsFrom(s: string, n: nat)
    requires Fits(s) && n <= |s|
    ensures Fits(s[n..])
  {
    var t := s[n..];
    forall i: nat, j: nat, k: nat | AllEol(t, i, j) && NoEol(t, j, k)
      ensures k - i < MAX_AT_RESPONSE
    {
      assert forall m :: i + n <= m < k + n ==> s[m] == t[m - n];
      assert AllEol(s, i + n, j + n) && NoEol(s, j + n, k + n);
    }
  }

  lemma SkipRunFits(s: string)
    requires Fits(s)
    ensures Fits(SkipRun(s)) && RunLength(s) + LineLength(SkipRun(s)) < MAX_AT_RESPONSE
  {
    var (r, t) := (RunLength(s), SkipRun(s));
    FitsFrom(s, r);
    assert forall m :: r <= m < r + LineLength(t) ==> s[m] == t[m - r];
    assert AllEol(s, 0, r) && NoEol(s, r, r + LineLength(t));
  }

  /** More text behind a text that does not end in its leading run. */
  lemma {:induction false} SkipRunOfMore(b: string, c: string)
    ensures SkipRun(SkipRun(b) + c) == SkipRun(b + c)
    ensures SkipRun(b) != "" ==> SkipRun(b + c) == SkipRun(b) + c
  {
    var r := RunLength(b);
    var s := b + c;
    assert s[r..] == SkipRun(b) + c;
    assert AllEol(s, 0, r);
    DropFromRun(s, r);
  }

  /** Dropping part of the leading run does not change what follows it. */
  lemma DropFromRun(s: string, n: nat)
    requires AllEol(s, 0, n)
    ensures RunLength(s) == n + RunLength(s[n..]) && SkipRun(s[n..]) == SkipRun(s)
    ensures n < |s| && !IsEol(s[n]) ==> SkipRun(s) == s[n..]
  {
    RunLengthIs(s, n + RunLength(s[n..]));
    assert SkipRun(s[n..]) == SkipRun(s);
  }

  lemma LineOfMore(t: string, c: string)
    requires LineLength(t) < |t|
    ensures LineLength(t + c) == LineLength(t)
    ensures (t + c)[..LineLength(t)] == t[..LineLength(t)]
    ensures (t + c)[LineLength(t) + 1..] == t[LineLength(t) + 1..] + c
  {
    LineLengthIs(t + c, LineLength(t));
  }

  // ---------- the stream, cut into reads ----------

  const PROMPT := "> "

  /** findNextEOL on the text up to the terminating NUL. */
  function NextEol(s: string): (r: Option<nat>)
    ensures r.Some? ==> r.value <= |s| && (s == PROMPT || r.value == LineLength(s) < |s|)
  {
    if s == PROMPT then Some(2)
    else if LineLength(s) < |s| then Some(LineLength(s))
    else None
  }

  function Concat(chunks: seq<string>): string {
    if chunks == [] then "" else chunks[0] + Concat(chunks[1..])
  }

  lemma Assoc<T>(a: seq<T>, b: seq<T>, c: seq<T>)
    ensures a + b + c == a + (b + c)
  {
  }

  lemma {:induction false} ConcatOfTwo(a: seq<string>, b: seq<string>)
    ensures Concat(a + b) == Concat(a) + Concat(b)
  {
    if a == [] {
      assert a + b == b;
    } else {
      assert (a + b)[1..] == a[1..] + b;
      ConcatOfTwo(a[1..], b);
    }
  }

  lemma ConcatOneMore(got: seq<string>, chunk: string, rest: string)
    ensures Concat(got + [chunk]) == Concat(got) + chunk
    ensures Concat(got) + (chunk + rest) == Concat(got + [chunk]) + rest
  {
    ConcatOfTwo(got, [chunk]);
    assert Concat([chunk]) == chunk + Concat([chunk][1..]) == chunk;
    Assoc(Concat(got), chunk, rest);
  }

  /** The first line of a text that has one, or is the prompt. */
  function FirstLine(b: string): string
    requires NextEol(SkipRun(b)).Some?
  {
    SkipRun(b)[..NextEol(SkipRun(b)).value]
  }

  /** What is left when it has been taken. */
  function Left(b: string): string
    requires NextEol(SkipRun(b)).Some?
  {
    var t := SkipRun(b);
    if t == PROMPT then "" else t[NextEol(t).value + 1..]
  }

  /** What readline returns, call after call, when `b` is in the buffer and the reads bring `chunks`. It
      looks at the buffer at first, after each line and after each read. A prompt that nothing has
      terminated is taken to leave nothing behind. */
  function Drained(b: string, chunks: seq<string>): seq<string>
    decreases |chunks|, |b|
  {
    var t := SkipRun(b);
    match NextEol(t)
    case None => if chunks == [] then [] else Drained(b + chunks[0], chunks[1..])
    case Some(_) => [FirstLine(b)] + Drained(Left(b), chunks)
  }

  /** Reads that find enough room in the buffer. */
  predicate Deliverable(b: string, chunks: seq<string>)
    decreases |chunks|, |b|
  {
    var t := SkipRun(b);
    match NextEol(t)
    case None =>
      chunks == [] || (|b| + |chunks[0]| <= MAX_AT_RESPONSE && Deliverable(b + chunks[0], chunks[1..]))
    case Some(_) => Deliverable(Left(b), chunks)
  }

  /** The text behind the last CR or LF. */
  function Unterminated(s: string): string {
    if s == "" then ""
    else if LineLength(s) == |s| then s
    else Unterminated(s[1..])
  }

  /** A prompt that nothing terminates. */
  function PromptAtEnd(s: string): seq<string> {
    if Unterminated(s) == PROMPT then [PROMPT] else []
  }

  /** The lines of a stream: its non-empty CR/LF-terminated segments, and a prompt at its end. */
  function Lines(s: string): seq<string> {
    Segments(s, "") + PromptAtEnd(s)
  }

  lemma FirstSegment(s: string)
    ensures var t := SkipRun(s); var n := LineLength(t);
      Segments(s, "") == if n == |t| then [] else [t[..n]] + Segments(t[n + 1..], "")
  {
    var t := SkipRun(s);
    SegmentsSkipRun(s);
    SegmentsFirstLine(t, "");
    if LineLength(t) < |t| {
      assert "" + t[..LineLength(t)] == t[..LineLength(t)] && t[..LineLength(t)][0] == t[0];
    }
  }

  lemma {:induction false} UnterminatedBehind(s: string, n: nat)
    requires n < |s| && IsEol(s[n])
    ensures Unterminated(s) == Unterminated(s[n + 1..])
    decreases n
  {
    assert IsEol(s[n]);
    if n > 0 {
      UnterminatedBehind(s[1..], n - 1);
      assert s[1..][n..] == s[n + 1..];
    }
  }

  lemma UnterminatedSkipped(s: string)
    ensures Unterminated(SkipRun(s)) == Unterminated(s)
  {
    if RunLength(s) > 0 {
      UnterminatedBehind(s, RunLength(s) - 1);
    } else {
      assert SkipRun(s) == s;
    }
  }

  lemma HasNoLine(s: string, t: string)
    requires t == SkipRun(s) && LineLength(t) == |t|
    ensures Lines(s) == if t == PROMPT then [PROMPT] else []
  {
    FirstSegment(s);
    UnterminatedSkipped(s);
  }

  lemma BeginsWithLine(s: string, t: string, line: string, rest: string)
    requires t == SkipRun(s) && LineLength(t) < |t| && t[..LineLength(t)] == line && t[LineLength(t) + 1..] == rest
    ensures Lines(s) == [line] + Lines(rest)
  {
    FirstSegment(s);
    UnterminatedSkipped(s);
    UnterminatedBehind(t, LineLength(t));
    Assoc([line], Segments(rest, ""), PromptAtEnd(rest));
  }

  predicate GoesOnAfterPrompt(t: string) {
    |t| > 2 && t[..2] == PROMPT && !IsEol(t[2])
  }

  /** No line begins like a prompt and goes on. */
  predicate Unambiguous(s: string)
    decreases |s|
  {
    var t := SkipRun(s);
    var n := LineLength(t);
    !GoesOnAfterPrompt(t) && (n == |t| || Unambiguous(t[n + 1..]))
  }

  lemma SkippedLines(s: string, t: string)
    requires SkipRun(s) == SkipRun(t)
    ensures Lines(s) == Lines(t)
  {
    SegmentsSkipRun(s);
    SegmentsSkipRun(t);
    UnterminatedSkipped(s);
    UnterminatedSkipped(t);
  }

  lemma SkippedAmbiguity(s: string, t: string)
    requires SkipRun(s) == SkipRun(t) && Unambiguous(s)
    ensures Unambiguous(t)
  {
  }

  lemma LineInFront(s: string, t: string, c: string)
    requires SkipRun(s) == t + c && LineLength(t) < |t|
    ensures Lines(s) == [t[..LineLength(t)]] + Lines(t[LineLength(t) + 1..] + c)
  {
    LineOfMore(t, c);
    BeginsWithLine(s, t + c, t[..LineLength(t)], t[LineLength(t) + 1..] + c);
  }

  lemma RestIsUnambiguous(s: string, t: string, c: string)
    requires SkipRun(s) == t + c && LineLength(t) < |t| && !GoesOnAfterPrompt(t + c)
    ensures Unambiguous(s) <==> Unambiguous(t[LineLength(t) + 1..] + c)
  {
    LineOfMore(t, c);
  }

  lemma PromptAlone(s: string)
    requires SkipRun(s) == PROMPT
    ensures Lines(s) == [PROMPT] + Lines("")
  {
    LineLengthIs(PROMPT, 2);
    HasNoLine(s, PROMPT);
    assert Segments("", "") == [] && Unterminated("") == "";
  }

  lemma PromptWithMore(t: string, c: string)
    requires t == PROMPT + c && c != "" && !GoesOnAfterPrompt(t)
    ensures LineLength(t) == 2 && t[..2] == PROMPT && t[3..] == c[1..] && SkipRun(c) == SkipRun(c[1..])
  {
    assert t[..2] == PROMPT && t[2] == c[0];
    LineLengthIs(t, 2);
    assert AllEol(c, 0, 1);
    DropFromRun(c, 1);
  }

  lemma PromptInFront(s: string, c: string)
    requires SkipRun(s) == PROMPT + c && Unambiguous(s)
    ensures Unambiguous(c) && Lines(s) == [PROMPT] + Lines(c)
  {
    if c == "" {
      assert PROMPT + c == PROMPT;
      PromptAlone(s);
    } else {
      PromptWithMore(SkipRun(s), c);
      BeginsWithLine(s, SkipRun(s), PROMPT, c[1..]);
      SkippedLines(c, c[1..]);
      SkippedAmbiguity(c[1..], c);
    }
  }

  lemma PromptIsTaken(b: string)
    requires SkipRun(b) == PROMPT
    ensures FirstLine(b) == PROMPT && Left(b) == ""
  {
    assert PROMPT[..2] == PROMPT;
  }

  /** The first line of a stream of which `b` is in the buffer. */
  lemma OneLineOff(b: string, c: string)
    requires NextEol(SkipRun(b)).Some? && Unambiguous(b + c)
    ensures Unambiguous(Left(b) + c) && Lines(b + c) == [FirstLine(b)] + Lines(Left(b) + c)
  {
    SkipRunOfMore(b, c);
    if SkipRun(b) == PROMPT {
      PromptInFront(b + c, c);
      PromptIsTaken(b);
      assert Left(b) + c == c;
    } else {
      LineInFront(b + c, SkipRun(b), c);
      RestIsUnambiguous(b + c, SkipRun(b), c);
    }
  }

  lemma NoLineYet(b: string)
    requires NextEol(SkipRun(b)).None?
    ensures Lines(b) == []
  {
    HasNoLine(b, SkipRun(b));
  }

  /** However an unambiguous stream is cut, its lines come out. */
  lemma {:induction false} CutAsYouLike(b: string, chunks: seq<string>)
    requires Unambiguous(b + Concat(chunks))
    ensures Drained(b, chunks) == Lines(b + Concat(chunks))
    decreases |chunks|, |b|
  {
    if NextEol(SkipRun(b)).Some? {
      OneLineOff(b, Concat(chunks));
      CutAsYouLike(Left(b), chunks);
    } else if chunks != [] {
      assert b + Concat(chunks) == b + chunks[0] + Concat(chunks[1..]);
      CutAsYouLike(b + chunks[0], chunks[1..]);
    } else {
      assert b + Concat(chunks) == b;
      NoLineYet(b);
    }
  }

  /** What follows a line that begins like a prompt and goes on: never the prompt itself. */
  lemma {:induction false} NeverThePrompt(b: string, chunks: seq<string>)
    requires GoesOnAfterPrompt(SkipRun(b))
    ensures Drained(b, chunks) == [] || Drained(b, chunks)[0] != PROMPT
    decreases |chunks|
  {
    var t := SkipRun(b);
    assert t[0] == '>' && t[1] == ' ';
    if NextEol(t).None? && chunks != [] {
      SkipRunOfMore(b, chunks[0]);
      assert (t + chunks[0])[..2] == t[..2] && (t + chunks[0])[2] == t[2];
      NeverThePrompt(b + chunks[0], chunks[1..]);
    }
  }

  /** A run, a line and its end: the text of one read. */
  predicate OneLine(b: string, line: string) {
    exists r: nat, e: char :: r <= |b| && AllEol(b, 0, r) && b[r..] == line + [e] && line != "" && IsEol(e)
                              && NoEol(line, 0, |line|)
  }

  lemma LineRead(b: string, line: string, chunks: seq<string>)
    requires OneLine(b, line)
    ensures Drained(b, chunks) == [line] + Drained("", chunks)
    ensures Deliverable(b, chunks) <==> Deliverable("", chunks)
  {
    var r: nat, e: char :| r <= |b| && AllEol(b, 0, r) && b[r..] == line + [e] && line != "" && IsEol(e)
                           && NoEol(line, 0, |line|);
    var t := line + [e];
    assert b[r] == t[0] == line[0];
    RunLengthIs(b, r);
    LineLengthIs(t, |line|);
    assert t[|line|] == e && t[..|line|] == line && t[|line| + 1..] == "";
  }

  lemma FirstRead(x: string, d: seq<string>)
    ensures Concat([x] + d) == x + Concat(d)
    ensures Drained("", [x] + d) == Drained(x, d)
    ensures Deliverable("", [x] + d) <==> |x| <= MAX_AT_RESPONSE && Deliverable(x, d)
  {
    assert "" + x == x && ([x] + d)[1..] == d;
  }

  /** The text up to the end of the first line, and the text behind it. */
  function FirstLength(s: string): (n: nat)
    ensures n <= |s|
  {
    RunLength(s) + LineLength(SkipRun(s))
  }

  lemma FirstIsOneLine(s: string)
    requires FirstLength(s) < |s|
    ensures OneLine(s[..FirstLength(s) + 1], SkipRun(s)[..LineLength(SkipRun(s))])
    ensures SkipRun(s)[LineLength(SkipRun(s)) + 1..] == s[FirstLength(s) + 1..]
  {
    var (r, t) := (RunLength(s), SkipRun(s));
    var l := LineLength(t);
    var b := s[..r + l + 1];
    assert b[r..] == t[..l] + [t[l]];
    assert AllEol(b, 0, r) && NoEol(t[..l], 0, l);
  }

  /** One read for each run with the line after it. */
  function ByLines(s: string): (r: seq<string>)
    decreases |s|
  {
    var n := FirstLength(s);
    if n == |s| then [s] else [s[..n + 1]] + ByLines(s[n + 1..])
  }

  lemma {:induction false} ByLinesIsDeliverable(s: string)
    requires Fits(s)
    ensures CutOf(s, ByLines(s))
    decreases |s|
  {
    var n := FirstLength(s);
    SkipRunFits(s);
    if n == |s| {
      OneReadOf(s);
    } else {
      FitsFrom(s, n + 1);
      ByLinesIsDeliverable(s[n + 1..]);
      FirstIsOneLine(s);
      Joined(s, n + 1);
      LineThen(s[..n + 1], SkipRun(s)[..LineLength(SkipRun(s))], s[n + 1..], ByLines(s[n + 1..]));
    }
  }

  predicate CutOf(s: string, c: seq<string>) {
    Concat(c) == s && Deliverable("", c)
  }

  lemma OneReadOf(s: string)
    requires |s| <= MAX_AT_RESPONSE && FirstLength(s) == |s|
    ensures CutOf(s, [s])
  {
    FirstRead(s, []);
    assert [s] + [] == [s] && s + "" == s;
  }

  lemma LineThen(x: string, line: string, rest: string, d: seq<string>)
    requires OneLine(x, line) && |x| <= MAX_AT_RESPONSE && CutOf(rest, d)
    ensures CutOf(x + rest, [x] + d)
    ensures Drained("", [x] + d) == [line] + Drained("", d)
  {
    FirstRead(x, d);
    LineRead(x, line, d);
  }

  lemma StillDifferent(x: string, line: string, rest: string, c: seq<string>, d: seq<string>)
    requires OneLine(x, line) && |x| <= MAX_AT_RESPONSE && CutOf(rest, c) && CutOf(rest, d)
    requires Drained("", c) != Drained("", d)
    ensures CutOf(x + rest, [x] + c) && Drained("", [x] + c) != Drained("", [x] + d)
  {
    LineThen(x, line, rest, c);
    LineThen(x, line, rest, d);
    assert ([line] + Drained("", c))[1..] == Drained("", c);
    assert ([line] + Drained("", d))[1..] == Drained("", d);
  }

  /** A stream with a line that begins like a prompt and goes on comes out differently when a read ends
      behind the blank. */
  lemma {:induction false} CutBehindTheBlank(s: string) returns (c: seq<string>)
    requires !Unambiguous(s) && Fits(s)
    ensures CutOf(s, c) && Drained("", c) != Drained("", ByLines(s))
    decreases |s|, 0
  {
    if GoesOnAfterPrompt(SkipRun(s)) {
      c := [s[..RunLength(s) + 2]] + ByLines(s[RunLength(s) + 2..]);
      PromptWhenCut(s);
      NeverByLines(s);
    } else {
      var (n, line) := (FirstLength(s), SkipRun(s)[..LineLength(SkipRun(s))]);
      SkipRunFits(s);
      AmbiguousRest(s);
      FirstIsOneLine(s);
      FitsFrom(s, n + 1);
      Joined(s, n + 1);
      c := BehindOneLine(s[..n + 1], line, s[n + 1..]);
    }
  }

  lemma {:induction false} BehindOneLine(x: string, line: string, rest: string) returns (c: seq<string>)
    requires OneLine(x, line) && |x| <= MAX_AT_RESPONSE && !Unambiguous(rest) && Fits(rest)
    ensures CutOf(x + rest, c) && Drained("", c) != Drained("", [x] + ByLines(rest))
    decreases |rest|, 1
  {
    var d := CutBehindTheBlank(rest);
    c := [x] + d;
    ByLinesIsDeliverable(rest);
    StillDifferent(x, line, rest, d, ByLines(rest));
  }

  lemma Joined(s: string, n: nat)
    requires n <= |s|
    ensures s[..n] + s[n..] == s
  {
  }

  lemma AmbiguousRest(s: string)
    requires !Unambiguous(s) && !GoesOnAfterPrompt(SkipRun(s))
    ensures FirstLength(s) < |s| && !Unambiguous(s[FirstLength(s) + 1..])
  {
    FirstIsOneLine(s);
  }

  /** A read that ends behind the blank brings the prompt. */
  lemma PromptRead(b: string, rest: string, more: seq<string>)
    requires SkipRun(b) == PROMPT && |b| <= MAX_AT_RESPONSE && CutOf(rest, more)
    ensures CutOf(b + rest, [b] + more) && Drained("", [b] + more) == [PROMPT] + Drained("", more)
  {
    FirstRead(b, more);
    assert PROMPT[..2] == PROMPT;
  }

  lemma GoesOn(t: string)
    requires GoesOnAfterPrompt(t)
    ensures t[0] == '>' && t[1] == ' ' && LineLength(t) >= 3
  {
    assert t[0] == t[..2][0] && t[1] == t[..2][1];
  }

  lemma PromptWhenCut(s: string)
    requires GoesOnAfterPrompt(SkipRun(s)) && Fits(s)
    ensures var c := [s[..RunLength(s) + 2]] + ByLines(s[RunLength(s) + 2..]);
      CutOf(s, c) && Drained("", c) != [] && Drained("", c)[0] == PROMPT
  {
    var r := RunLength(s);
    SkipRunFits(s);
    GoesOn(SkipRun(s));
    PromptBehindRun(s, r);
    Joined(s, r + 2);
    FitsFrom(s, r + 2);
    ByLinesIsDeliverable(s[r + 2..]);
    PromptRead(s[..r + 2], s[r + 2..], ByLines(s[r + 2..]));
  }

  lemma PromptBehindRun(s: string, r: nat)
    requires r + 2 <= |s| && AllEol(s, 0, r) && s[r] == '>' && s[r + 1] == ' '
    ensures SkipRun(s[..r + 2]) == PROMPT
  {
    var b := s[..r + 2];
    RunLengthIs(b, r);
    assert b[r..] == PROMPT;
  }

  lemma LongFirstLine(s: string)
    requires GoesOnAfterPrompt(SkipRun(s)) && FirstLength(s) < |s|
    ensures exists line :: OneLine(s[..FirstLength(s) + 1], line) && |line| >= 3
  {
    FirstIsOneLine(s);
    GoesOn(SkipRun(s));
  }

  lemma NeverByLines(s: string)
    requires GoesOnAfterPrompt(SkipRun(s))
    ensures Drained("", ByLines(s)) == [] || Drained("", ByLines(s))[0] != PROMPT
  {
    var n := FirstLength(s);
    if n == |s| {
      NeverInOneRead(s);
    } else {
      LongFirstLine(s);
      var line :| OneLine(s[..n + 1], line) && |line| >= 3;
      OtherLine(s[..n + 1], line, ByLines(s[n + 1..]));
    }
  }

  lemma NeverInOneRead(s: string)
    requires GoesOnAfterPrompt(SkipRun(s))
    ensures Drained("", [s]) == [] || Drained("", [s])[0] != PROMPT
  {
    FirstRead(s, []);
    assert [s] + [] == [s];
    NeverThePrompt(s, []);
  }

  lemma OtherLine(x: string, line: string, d: seq<string>)
    requires OneLine(x, line) && |line| >= 3
    ensures Drained("", [x] + d) != [] && Drained("", [x] + d)[0] != PROMPT
  {
    FirstRead(x, d);
    LineRead(x, line, d);
  }

  /** The lines are the same for all cuttings of a stream into reads iff none begins like a prompt and goes
      on. */
  lemma CuttingDoesNotMatterIff(s: string)
    requires Fits(s)
    ensures (forall c, d :: CutOf(s, c) && CutOf(s, d) ==> Drained("", c) == Drained("", d)) <==> Unambiguous(s)
  {
    if Unambiguous(s) {
      forall c | CutOf(s, c) ensures Drained("", c) == Lines(s) {
        assert "" + Concat(c) == s;
        CutAsYouLike("", c);
      }
    } else {
      var c := CutBehindTheBlank(s);
      ByLinesIsDeliverable(s);
      assert CutOf(s, c) && CutOf(s, ByLines(s));
    }
  }

  lemma ReadAlone(line: string)
    requires 0 < |line| < MAX_AT_RESPONSE && NoEol(line, 0, |line|)
    ensures CutOf(line + ['\r'], [line + ['\r']]) && Drained("", [line + ['\r']]) == [line]
  {
    var s := line + ['\r'];
    assert s[0..] == s && AllEol(s, 0, 0) && OneLine(s, line);
    assert [s] + [] == [s] && s + "" == s && CutOf("", []) && Drained("", []) == [];
    LineThen(s, line, "", []);
  }

  /** Any text behind a prompt: one line in one read, two if the first read ends behind the blank. */
  lemma TwoCuttings(line: string)
    requires 0 < |line| < MAX_AT_RESPONSE - 2 && NoEol(line, 0, |line|)
    ensures var (rest, s) := (line + ['\r'], PROMPT + line + ['\r']);
      && CutOf(s, [s]) && Drained("", [s]) == [PROMPT + line]
      && CutOf(s, [PROMPT] + [rest]) && Drained("", [PROMPT] + [rest]) == [PROMPT] + [line]
  {
    var rest := line + ['\r'];
    ReadAlone(PROMPT + line);
    ReadAlone(line);
    RunLengthIs(PROMPT, 0);
    PromptRead(PROMPT, rest, [rest]);
    assert PROMPT + line + ['\r'] == PROMPT + rest;
  }

  lemma SuffixFits(b: string, rest: string, n: nat)
    requires Fits(b + rest) && n <= |b|
    ensures Fits(b[n..] + rest)
  {
    FitsFrom(b + rest, n);
    assert (b + rest)[n..] == b[n..] + rest;
  }

  /** Leading newlines are skipped in any case. */
  lemma {:induction false} SkippedIsSame(b: string, c: string, chunks: seq<string>)
    requires SkipRun(b) == SkipRun(c)
    ensures Drained(b, chunks) == Drained(c, chunks)
    decreases |chunks|
  {
    if NextEol(SkipRun(b)).None? && chunks != [] {
      SkipRunOfMore(b, chunks[0]);
      SkipRunOfMore(c, chunks[0]);
      SkippedIsSame(b + chunks[0], c + chunks[0], chunks[1..]);
    }
  }

  /** While there is no line there is room for another read. */
  lemma ThereIsRoom(w: string, rest: string)
    requires Fits(w + rest) && NextEol(SkipRun(w)).None?
    ensures |w| < MAX_AT_RESPONSE
  {
    var (s, r, t) := (w + rest, RunLength(w), SkipRun(w));
    assert forall k :: r <= k < |w| ==> s[k] == t[k - r];
    assert AllEol(s, 0, r) && NoEol(s, r, |w|);
  }

  lemma ShortFits(s: string)
    requires |s| < MAX_AT_RESPONSE
    ensures Fits(s)
  {
  }

  /** What is left of a text that fits does. */
  lemma LeftFits(w: string, rest: string)
    requires Fits(w + rest)
    ensures Fits(SkipRun(w) + rest)
    ensures NextEol(SkipRun(w)).Some? ==> Fits(SkipRun(Left(w)) + rest)
  {
    SuffixFits(w, rest, RunLength(w));
    if NextEol(SkipRun(w)).Some? {
      if SkipRun(w) == PROMPT {
        SuffixFits(w, rest, |w|);
        assert SkipRun(Left(w)) == w[|w|..];
      } else {
        SuffixFits(SkipRun(w), rest, NextEol(SkipRun(w)).value + 1);
        SuffixFits(Left(w), rest, RunLength(Left(w)));
      }
    }
  }
}
