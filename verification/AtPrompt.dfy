/** Call after call of readline on one buffer (sprd-ril/atchannel.c), past SMS prompts: what a prompt that
    nothing terminates leaves in the buffer, and when it does no harm. */
module AtPrompt {
  import opened AtBuffer
  import opened AtLines
  import opened Options

  // ---------- runs of calls ----------

  /** The calls make the reads `gots`, one sequence of reads for each call. */
  predicate CanRun(b: Buffer, gots: seq<seq<string>>)
    decreases |gots|, 0
  {
    gots == [] ||
    (CanRun(b, gots[..|gots| - 1]) && CanCall(AfterRun(b, gots[..|gots| - 1]), gots[|gots| - 1]))
  }

  function AfterRun(b: Buffer, gots: seq<seq<string>>): Buffer
    requires CanRun(b, gots)
    decreases |gots|, 1
  {
    if gots == [] then b else Call(AfterRun(b, gots[..|gots| - 1]), gots[|gots| - 1]).1
  }

  function AsSeq<T>(o: Option<T>): seq<T> {
    if o.Some? then [o.value] else []
  }

  /** The lines the calls return. */
  function Heard(b: Buffer, gots: seq<seq<string>>): seq<string>
    requires CanRun(b, gots)
  {
    if gots == [] then []
    else Heard(b, gots[..|gots| - 1]) + AsSeq(Call(AfterRun(b, gots[..|gots| - 1]), gots[|gots| - 1]).0)
  }

  /** All reads of the calls. */
  function AllReads(gots: seq<seq<string>>): seq<string> {
    if gots == [] then [] else AllReads(gots[..|gots| - 1]) + gots[|gots| - 1]
  }

  lemma RunGoesOn(b: Buffer, gots: seq<seq<string>>, got: seq<string>, rest: string)
    requires CanRun(b, gots) && CanCall(AfterRun(b, gots), got)
    ensures CanRun(b, gots + [got]) && (AfterRun(b, gots + [got]) == Call(AfterRun(b, gots), got).1)
    ensures Heard(b, gots + [got]) == Heard(b, gots) + AsSeq(Call(AfterRun(b, gots), got).0)
    ensures Concat(AllReads(gots + [got])) + rest == Concat(AllReads(gots)) + (Concat(got) + rest)
  {
    var all := gots + [got];
    assert all[..|all| - 1] == gots && all[|all| - 1] == got;
    ConcatOfTwo(AllReads(gots), got);
    Assoc(Concat(AllReads(gots)), Concat(got), rest);
  }

  /** The call returns a prompt that nothing has terminated. */
  predicate IsPrompted(b: Buffer, got: seq<string>)
    requires CanCall(b, got)
  {
    SkipRun(TextOf(Searched(b, got))) == PROMPT
  }

  /** After such a prompt the cursor is in the array, and there are only newlines up to the next NUL. */
  predicate LeavesNothing(b: Buffer, got: seq<string>)
    requires CanCall(b, got)
  {
    IsPrompted(b, got) ==>
      var after := Call(b, got).1;
      IsInside(after) && SkipRun(TextOf(after)) == ""
  }

  predicate IsClean(b: Buffer, gots: seq<seq<string>>)
    requires CanRun(b, gots)
  {
    gots == [] ||
    (var before := gots[..|gots| - 1];
     IsClean(b, before) && LeavesNothing(AfterRun(b, before), gots[|gots| - 1]))
  }

  // ---------- one call ----------

  lemma {:induction false} SameBehind(c: Cells, d: Cells, i: nat)
    requires i <= MAX_AT_RESPONSE && forall k :: i <= k <= MAX_AT_RESPONSE ==> c[k] == d[k]
    ensures TextAt(c, i) == TextAt(d, i)
    decreases MAX_AT_RESPONSE - i
  {
    if c[i] != NUL {
      SameBehind(c, d, i + 1);
    }
  }

  lemma SliceOfSlice(s: string, r: nat, n: nat)
    requires r + n <= |s|
    ensures s[r..][n..] == s[r + n..]
  {
  }

  lemma CutKeepsBehind(b: Buffer)
    requires HasLine(b) && EolOf(b) < MAX_AT_RESPONSE
    ensures TextAt(CutBehind(b).cells, EolOf(b) + 1) == TextAt(b.cells, EolOf(b) + 1)
  {
    SameBehind(b.cells, CutBehind(b).cells, EolOf(b) + 1);
  }

  lemma SliceOfSkipped(text: string, n: nat)
    requires n <= |SkipRun(text)|
    ensures SkipRun(text)[n..] == text[RunLength(text) + n..]
  {
    SliceOfSlice(text, RunLength(text), n);
  }

  lemma LeftIs(text: string, n: nat)
    requires NextEol(SkipRun(text)) == Some(n) && SkipRun(text) != PROMPT
    ensures n < |SkipRun(text)| && Left(text) == SkipRun(text)[n + 1..]
  {
  }

  /** A line that is terminated leaves what is behind its end. */
  lemma CutLeaves(b: Buffer)
    requires HasLine(b) && SkipRun(TextOf(b)) != PROMPT
    ensures IsInside(CutBehind(b)) && TextOf(CutBehind(b)) == Left(TextOf(b))
  {
    var n := NextEol(SkipRun(TextOf(b))).value;
    LeftIs(TextOf(b), n);
    SliceOfSkipped(TextOf(b), n + 1);
    CutKeepsBehind(b);
    TextBehind(b, EolOf(b) + 1 - b.cur);
  }

  lemma TextBehind(b: Buffer, n: nat)
    requires IsInside(b) && n <= |TextOf(b)|
    ensures TextAt(b.cells, b.cur + n) == TextOf(b)[n..]
  {
    TextFrom(b.cells, b.cur, n);
  }

  /** A prompt that nothing has terminated leaves what the cells behind its NUL have kept. */
  lemma PromptLeaves(b: Buffer)
    requires IsInside(b) && SkipRun(TextOf(b)) == PROMPT
    ensures HasLine(b) && FirstLine(TextOf(b)) == PROMPT
    ensures CutBehind(b) == Buffer(b.cells, b.cur + |TextOf(b)| + 1)
  {
    PromptIsTaken(TextOf(b));
    NulStays(b.cells, EolOf(b));
  }

  lemma NulStays(c: Cells, i: nat)
    requires i <= MAX_AT_RESPONSE && c[i] == NUL
    ensures c[i := NUL] == c
  {
  }

  /** After a call the cursor is behind the array iff a prompt that nothing has terminated fills it. */
  lemma CursorLeavesIff(b: Buffer, got: seq<string>)
    requires CanCall(b, got)
    ensures !IsInside(Call(b, got).1) <==>
      IsPrompted(b, got) && Searched(b, got).cur + |TextOf(Searched(b, got))| == MAX_AT_RESPONSE
  {
    var s := Searched(b, got);
    if SkipRun(TextOf(s)) == PROMPT {
      PromptLeaves(s);
    } else if HasLine(s) {
      CutLeaves(s);
    }
  }

  // ---------- as long as nothing is ditched ----------

  /** The reads before the last one, and that. */
  lemma LastRead(got: seq<string>, rest: string) returns (g: seq<string>, x: string)
    requires got != []
    ensures g == got[..|got| - 1] && x == got[|got| - 1] && got == g + [x]
    ensures Concat(got) == Concat(g) + x && Concat(got) + rest == Concat(g) + (x + rest)
  {
    g, x := got[..|got| - 1], got[|got| - 1];
    assert got == g + [x];
    ConcatOneMore(g, x, rest);
  }

  /** The reads of a call add up. */
  lemma {:induction false} ReadsAddUp(c: Cells, got: seq<string>, rest: string)
    requires CanReadAll(c, got) && Fits(TextAt(c, 0) + (Concat(got) + rest))
    ensures TextAt(AfterReads(c, got), 0) == TextAt(c, 0) + Concat(got)
    decreases |got|
  {
    if got == [] {
      assert TextAt(c, 0) + Concat(got) == TextAt(c, 0);
    } else {
      var g, x := LastRead(got, rest);
      ReadsAddUp(c, g, x + rest);
      Assoc(TextAt(c, 0), Concat(g), x + rest);
      ReadAddsUp(AfterReads(c, g), x, rest);
      Assoc(TextAt(c, 0), Concat(g), x);
    }
  }

  lemma ReadAddsUp(c: Cells, x: string, rest: string)
    requires NoLineIn(c) && CanRead(c, x) && Fits(TextAt(c, 0) + (x + rest))
    ensures Ditched(c) == c && TextAt(AfterRead(c, x), 0) == TextAt(c, 0) + x
  {
    ThereIsRoom(TextAt(c, 0), x + rest);
    OverwrittenText(c, TextAt(c, 0) + x);
  }

  /** They overwrite nothing behind the text they make up. */
  lemma {:induction false} ReadsKeepBehind(c: Cells, got: seq<string>, rest: string, k: nat)
    requires CanReadAll(c, got) && Fits(TextAt(c, 0) + (Concat(got) + rest))
    requires |TextAt(c, 0)| + |Concat(got)| < k <= MAX_AT_RESPONSE
    ensures AfterReads(c, got)[k] == c[k]
    decreases |got|
  {
    if got != [] {
      var g, x := LastRead(got, rest);
      ReadsKeepBehind(c, g, x + rest, k);
      ReadsAddUp(c, g, x + rest);
      Assoc(TextAt(c, 0), Concat(g), x + rest);
      ReadAddsUp(AfterReads(c, g), x, rest);
    }
  }

  /** The text a call looks at. */
  function Text(b: Buffer, got: seq<string>): string
    requires IsInside(b)
  {
    SkipRun(TextOf(b)) + Concat(got)
  }

  lemma SearchedText(b: Buffer, got: seq<string>, rest: string)
    requires CanCall(b, got) && Fits(Text(b, got) + rest)
    ensures SkipRun(TextOf(Searched(b, got))) == SkipRun(Text(b, got))
    ensures !HasLine(b) ==> TextOf(Searched(b, got)) == Text(b, got)
  {
    PreparedText(b);
    if HasLine(b) {
      assert Text(b, got) == SkipRun(TextOf(b));
    } else {
      Assoc(SkipRun(TextOf(b)), Concat(got), rest);
      ReadsAddUp(Prepared(b), got, rest);
    }
  }

  lemma NothingFound(b: Buffer, got: seq<string>, rest: string)
    requires CanCall(b, got) && Fits(Text(b, got) + rest) && !HasLine(Searched(b, got))
    ensures var after := Call(b, got).1;
      IsInside(after) && SkipRun(TextOf(after)) == SkipRun(Text(b, got))
  {
    var s := Searched(b, got);
    SearchedText(b, got, rest);
    ThereIsRoom(Text(b, got), rest);
    assert Ditched(s.cells) == s.cells;
    TextFrom(s.cells, 0, RunLength(TextAt(s.cells, 0)));
    SkipRunTwice(TextAt(s.cells, 0));
  }

  /** What a call returns and leaves, as texts: the first line of the text and what is behind it; after a
      prompt that nothing has terminated see PromptKeeps. */
  lemma CallIs(b: Buffer, got: seq<string>, rest: string)
    requires CanCall(b, got) && Fits(Text(b, got) + rest)
    ensures var ((line, after), t) := (Call(b, got), Text(b, got));
      && (IsPrompted(b, got) <==> SkipRun(t) == PROMPT)
      && line == (if NextEol(SkipRun(t)).Some? then Some(FirstLine(t)) else None)
      && (line.None? ==> IsInside(after) && SkipRun(TextOf(after)) == SkipRun(t))
      && (line.Some? && !IsPrompted(b, got) ==> IsInside(after) && TextOf(after) == Left(t))
  {
    var s := Searched(b, got);
    SearchedText(b, got, rest);
    if !HasLine(s) {
      NothingFound(b, got, rest);
    } else if SkipRun(TextOf(s)) != PROMPT {
      CutLeaves(s);
    }
  }

  lemma CellBehind(b: Buffer, got: seq<string>, rest: string, k: nat)
    requires CanCall(b, got) && !HasLine(b) && Fits(Text(b, got) + rest)
    requires |Text(b, got)| < k <= MAX_AT_RESPONSE
    ensures Searched(b, got).cells[k] == b.cells[k]
  {
    PreparedText(b);
    Assoc(SkipRun(TextOf(b)), Concat(got), rest);
    ReadsKeepBehind(Prepared(b), got, rest, k);
  }

  lemma ReadsLeaveBehind(b: Buffer, got: seq<string>, rest: string)
    requires CanCall(b, got) && !HasLine(b) && Fits(Text(b, got) + rest) && |Text(b, got)| < MAX_AT_RESPONSE
    ensures TextAt(Searched(b, got).cells, |Text(b, got)| + 1) == TextAt(b.cells, |Text(b, got)| + 1)
  {
    var (c, n) := (Searched(b, got).cells, |Text(b, got)|);
    forall k | n < k <= MAX_AT_RESPONSE ensures c[k] == b.cells[k] {
      CellBehind(b, got, rest, k);
    }
    SameBehind(c, b.cells, n + 1);
  }

  /** Where the text of a call ends. */
  function EndOf(b: Buffer, got: seq<string>): nat
    requires IsInside(b)
  {
    if HasLine(b) then b.cur + |TextOf(b)| else |Text(b, got)|
  }

  /** After a prompt that nothing has terminated the text goes on with what the buffer had there before
      the call. */
  lemma PromptKeeps(b: Buffer, got: seq<string>, rest: string)
    requires CanCall(b, got) && Fits(Text(b, got) + rest) && IsPrompted(b, got)
    ensures var (line, after) := Call(b, got);
      && line == Some(PROMPT) && after.cur == EndOf(b, got) + 1
      && (EndOf(b, got) < MAX_AT_RESPONSE ==> TextOf(after) == TextAt(b.cells, EndOf(b, got) + 1))
  {
    PromptEnds(b, got, rest);
    if !HasLine(b) && EndOf(b, got) < MAX_AT_RESPONSE {
      ReadsLeaveBehind(b, got, rest);
    }
  }

  lemma PromptEnds(b: Buffer, got: seq<string>, rest: string)
    requires CanCall(b, got) && Fits(Text(b, got) + rest) && IsPrompted(b, got)
    ensures Call(b, got) == (Some(PROMPT), Buffer(Searched(b, got).cells, EndOf(b, got) + 1))
  {
    SearchedText(b, got, rest);
    PromptLeaves(Searched(b, got));
  }

  /** The calls after it do what they would on an empty buffer, whatever is read, iff there are only
      newlines. */
  lemma NothingIsLeftIff(left: string)
    ensures (forall more :: Drained(left, more) == Drained("", more)) <==> SkipRun(left) == ""
  {
    if SkipRun(left) == "" {
      forall more ensures Drained(left, more) == Drained("", more) {
        SkippedIsSame(left, "", more);
      }
    } else if NextEol(SkipRun(left)).Some? {
      assert Drained(left, []) != [] && Drained("", []) == [];
    } else {
      LeftOverLine(left);
      assert Drained("", ["\r"]) == [] by {
        assert "" + "\r" == "\r" && SkipRun("\r") == "" && ["\r"][1..] == [];
      }
    }
  }

  lemma LeftOverLine(left: string)
    requires SkipRun(left) != "" && NextEol(SkipRun(left)).None?
    ensures Drained(left, ["\r"]) != []
  {
    var t := SkipRun(left);
    SkipRunOfMore(left, "\r");
    LineLengthIs(t + "\r", |t|);
    assert NextEol(SkipRun(left + "\r")).Some?;
    assert Drained(left + "\r", []) != [];
    assert ["\r"][1..] == [];
  }

  lemma ReadBehind(c: Cells, text: string, x: string)
    requires TextAt(c, 0) == text && NextEol(SkipRun(text)).None? && x != "" && NUL !in x
    requires |text| + |x| <= MAX_AT_RESPONSE && NUL !in text
    ensures CanReadAll(c, [x]) && TextAt(AfterReads(c, [x]), 0) == text + x
  {
    var none: seq<string> := [];
    assert [x][..0] == none;
    assert CanReadAll(c, none) && AfterReads(c, none) == c;
    OverwrittenText(c, text + x);
  }

  predicate BringsNewlines(got: seq<string>) {
    var all := Concat(got);
    |all| < MAX_AT_RESPONSE && AllEol(all, 0, |all|)
  }

  lemma NewlinesOnly(s: string)
    requires AllEol(s, 0, |s|)
    ensures SkipRun(s) == "" && NextEol(SkipRun(s)).None?
  {
    RunLengthIs(s, |s|);
  }

  lemma LeftOverIsReturned(b: Buffer)
    requires IsInside(b) && |TextOf(b)| < MAX_AT_RESPONSE && SkipRun(TextOf(b)) != "" && !HasLine(b)
    ensures CanCall(b, ["\r"]) && Call(b, ["\r"]).0.Some?
  {
    var x := SkipRun(TextOf(b));
    PreparedText(b);
    ReadBehind(Prepared(b), x, "\r");
    LineLengthIs(x + "\r", |x|);
    RunLengthIs(x + "\r", 0);
  }

  /** A call can return a line although only newlines are read iff more than newlines is left. */
  lemma NewlinesBringNothingIff(b: Buffer)
    requires IsInside(b) && |TextOf(b)| < MAX_AT_RESPONSE
    ensures (forall got :: CanCall(b, got) && BringsNewlines(got) ==> Call(b, got).0 == None)
      <==> SkipRun(TextOf(b)) == ""
  {
    if SkipRun(TextOf(b)) == "" {
      forall got | CanCall(b, got) && BringsNewlines(got) ensures Call(b, got).0 == None {
        assert Text(b, got) == Concat(got) && Text(b, got) + "" == Concat(got);
        ShortFits(Concat(got));
        NewlinesOnly(Concat(got));
        CallIs(b, got, "");
      }
    } else if HasLine(b) {
      assert CanCall(b, []) && BringsNewlines([]);
    } else {
      LeftOverIsReturned(b);
      assert ["\r"][1..] == [] && BringsNewlines(["\r"]);
    }
  }

  // ---------- runs past prompts ----------

  lemma {:induction false} ReadsAreDrained(c: Cells, got: seq<string>, more: seq<string>, rest: string)
    requires CanReadAll(c, got) && Fits(TextAt(c, 0) + (Concat(got) + rest))
    ensures Drained(TextAt(c, 0), got + more) == Drained(TextAt(AfterReads(c, got), 0), more)
    decreases |got|
  {
    if got == [] {
      assert got + more == more;
    } else {
      var g, x := LastRead(got, rest);
      Assoc(g, [x], more);
      ReadsAreDrained(c, g, [x] + more, x + rest);
      ReadsAddUp(c, g, x + rest);
      Assoc(TextAt(c, 0), Concat(g), x + rest);
      ReadAddsUp(AfterReads(c, g), x, rest);
      assert ([x] + more)[1..] == more;
    }
  }

  /** The reads of a call, and then what is found in the text. */
  lemma CallSearches(b: Buffer, got: seq<string>, more: seq<string>, rest: string)
    requires CanCall(b, got) && Fits(Text(b, got) + rest)
    ensures Drained(TextOf(b), got + more) == Drained(Text(b, got), more)
  {
    SkipRunTwice(TextOf(b));
    SkippedIsSame(TextOf(b), SkipRun(TextOf(b)), got + more);
    if HasLine(b) {
      assert got + more == more && Text(b, got) == SkipRun(TextOf(b));
    } else {
      PreparedText(b);
      Assoc(SkipRun(TextOf(b)), Concat(got), rest);
      ReadsAreDrained(Prepared(b), got, more, rest);
      ReadsAddUp(Prepared(b), got, rest);
    }
  }

  /** One call, if it leaves nothing after a prompt. */
  lemma CallIsDrained(b: Buffer, got: seq<string>, more: seq<string>, rest: string)
    requires CanCall(b, got) && LeavesNothing(b, got) && Fits(Text(b, got) + rest)
    ensures var (line, after) := Call(b, got);
      IsInside(after) && Drained(TextOf(b), got + more) == AsSeq(line) + Drained(TextOf(after), more)
  {
    var ((line, after), t) := (Call(b, got), Text(b, got));
    CallSearches(b, got, more, rest);
    CallIs(b, got, rest);
    if line.None? {
      SkippedIsSame(t, TextOf(after), more);
    } else if IsPrompted(b, got) {
      PromptIsTaken(t);
      SkippedIsSame("", TextOf(after), more);
    }
  }

  lemma CallFits(b: Buffer, got: seq<string>, rest: string)
    requires CanCall(b, got) && LeavesNothing(b, got) && Fits(Text(b, got) + rest)
    ensures IsInside(Call(b, got).1) && Fits(SkipRun(TextOf(Call(b, got).1)) + rest)
  {
    var t := Text(b, got);
    CallIs(b, got, rest);
    LeftFits(t, rest);
    if IsPrompted(b, got) {
      PromptIsTaken(t);
    }
  }

  lemma LastCall(gots: seq<seq<string>>, rest: string) returns (before: seq<seq<string>>, got: seq<string>)
    requires gots != []
    ensures before == gots[..|gots| - 1] && got == gots[|gots| - 1] && AllReads(gots) == AllReads(before) + got
    ensures Concat(AllReads(gots)) + rest == Concat(AllReads(before)) + (Concat(got) + rest)
  {
    before, got := gots[..|gots| - 1], gots[|gots| - 1];
    ConcatOfTwo(AllReads(before), got);
    Assoc(Concat(AllReads(before)), Concat(got), rest);
  }

  lemma {:induction false} RunFits(b: Buffer, gots: seq<seq<string>>, rest: string)
    requires IsInside(b) && CanRun(b, gots) && IsClean(b, gots)
    requires Fits(SkipRun(TextOf(b)) + (Concat(AllReads(gots)) + rest))
    ensures IsInside(AfterRun(b, gots)) && Fits(SkipRun(TextOf(AfterRun(b, gots))) + rest)
    decreases |gots|
  {
    if gots == [] {
      assert Concat(AllReads(gots)) + rest == rest;
    } else {
      var before, got := LastCall(gots, rest);
      RunFits(b, before, Concat(got) + rest);
      var b' := AfterRun(b, before);
      Assoc(SkipRun(TextOf(b')), Concat(got), rest);
      CallFits(b', got, rest);
    }
  }

  /** Past any prompts that leave nothing, the calls return what the reads bring. */
  lemma {:induction false} RunIsDrained(b: Buffer, gots: seq<seq<string>>, more: seq<string>, rest: string)
    requires IsInside(b) && CanRun(b, gots) && IsClean(b, gots)
    requires Fits(SkipRun(TextOf(b)) + (Concat(AllReads(gots)) + rest))
    ensures IsInside(AfterRun(b, gots))
    ensures Drained(TextOf(b), AllReads(gots) + more) == Heard(b, gots) + Drained(TextOf(AfterRun(b, gots)), more)
    decreases |gots|
  {
    if gots == [] {
      assert AllReads(gots) + more == more;
    } else {
      var before, got := LastCall(gots, rest);
      RunFits(b, before, Concat(got) + rest);
      RunIsDrained(b, before, got + more, Concat(got) + rest);
      var b' := AfterRun(b, before);
      Assoc(SkipRun(TextOf(b')), Concat(got), rest);
      CallIsDrained(b', got, more, rest);
      Assoc(AllReads(before), got, more);
      Assoc(Heard(b, before), AsSeq(Call(b', got).0), Drained(TextOf(AfterRun(b, gots)), more));
    }
  }

  /** So however the stream is cut into reads, and wherever reads fail, its lines come out, past any number
      of prompts: if it is unambiguous, fits, and no prompt leaves anything. */
  lemma LinesComeOut(b: Buffer, gots: seq<seq<string>>, rest: string)
    requires IsInside(b) && CanRun(b, gots) && IsClean(b, gots)
    requires Fits(SkipRun(TextOf(b)) + (Concat(AllReads(gots)) + rest))
    requires Unambiguous(TextOf(b) + (Concat(AllReads(gots)) + rest))
    ensures var all := Lines(TextOf(b) + (Concat(AllReads(gots)) + rest));
      && Heard(b, gots) <= all
      && (rest == "" && !HasLine(AfterRun(b, gots)) ==> Heard(b, gots) == all)
  {
    RunIsDrained(b, gots, [rest], rest);
    ConcatOneMore(AllReads(gots), rest, "");
    CutAsYouLike(TextOf(b), AllReads(gots) + [rest]);
    if rest == "" && !HasLine(AfterRun(b, gots)) {
      NothingComes(TextOf(AfterRun(b, gots)));
    }
  }

  lemma NothingComes(b: string)
    requires NextEol(SkipRun(b)).None?
    ensures Drained(b, [""]) == []
  {
    assert b + "" == b && [""][1..] == [];
  }
}
