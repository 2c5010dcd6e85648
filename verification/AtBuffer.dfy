/** The buffer of an AT channel as a value (sprd-ril/atchannel.c): what a call of readline makes of it. */
module AtBuffer {
  import opened AtLines
  import opened Options

  const NUL := '\0'

  /** The cells of the buffer; the last one is NUL and stays so. */
  type Cells = c: seq<char> | |c| == MAX_AT_RESPONSE + 1 && c[MAX_AT_RESPONSE] == NUL
    witness seq(MAX_AT_RESPONSE + 1, _ => NUL)

  /** With the cursor, which may be behind the last cell. */
  datatype Buffer = Buffer(cells: Cells, cur: nat)

  const EMPTY := Buffer(seq(MAX_AT_RESPONSE + 1, _ => NUL), 0)

  /** The text from cell i up to the next NUL. */
  function TextAt(c: Cells, i: nat): (s: string)
    requires i <= MAX_AT_RESPONSE
    ensures i + |s| <= MAX_AT_RESPONSE && c[i + |s|] == NUL
    ensures forall k :: 0 <= k < |s| ==> s[k] == c[i + k] != NUL
    decreases |c| - i
  {
    if c[i] == NUL then "" else [c[i]] + TextAt(c, i + 1)
  }

  predicate IsInside(b: Buffer) {
    b.cur <= MAX_AT_RESPONSE
  }

  function TextOf(b: Buffer): string
    requires IsInside(b)
  {
    TextAt(b.cells, b.cur)
  }

  /** A text at the front, with its NUL; the cells behind that keep what was there. */
  function Overwritten(c: Cells, text: string): Cells
    requires |text| <= MAX_AT_RESPONSE
  {
    text + [NUL] + c[|text| + 1..]
  }

  /** A text that fills the buffer is dropped before the next read. */
  function Ditched(c: Cells): Cells {
    if |TextAt(c, 0)| == MAX_AT_RESPONSE then c[0 := NUL] else c
  }

  /** A read that brings something, and not more than there is room for. */
  predicate CanRead(c: Cells, chunk: string) {
    chunk != "" && NUL !in chunk && |TextAt(Ditched(c), 0)| + |chunk| <= MAX_AT_RESPONSE
  }

  function AfterRead(c: Cells, chunk: string): Cells
    requires CanRead(c, chunk)
  {
    Overwritten(Ditched(c), TextAt(Ditched(c), 0) + chunk)
  }

  /** Whether there is no line in the text at the front. */
  predicate NoLineIn(c: Cells) {
    NextEol(SkipRun(TextAt(c, 0))).None?
  }

  /** Each of the reads is made because there is no line yet. */
  predicate CanReadAll(c: Cells, got: seq<string>)
    decreases |got|, 0
  {
    got == [] ||
    (var (before, chunk) := (got[..|got| - 1], got[|got| - 1]);
     CanReadAll(c, before) && NoLineIn(AfterReads(c, before)) && CanRead(AfterReads(c, before), chunk))
  }

  function AfterReads(c: Cells, got: seq<string>): Cells
    requires CanReadAll(c, got)
    decreases |got|, 1
  {
    if got == [] then c else AfterRead(AfterReads(c, got[..|got| - 1]), got[|got| - 1])
  }

  /** The partial line is moved to the front. */
  function Prepared(b: Buffer): Cells
    requires IsInside(b)
  {
    Overwritten(b.cells, SkipRun(TextOf(b)))
  }

  predicate HasLine(b: Buffer) {
    IsInside(b) && NextEol(SkipRun(TextOf(b))).Some?
  }

  /** The reads `got` of a call are made because the buffer has no line. */
  predicate CanCall(b: Buffer, got: seq<string>) {
    IsInside(b) && if HasLine(b) then got == [] else CanReadAll(Prepared(b), got)
  }

  /** Where the line of a call is looked for, once the reads are made. */
  function Searched(b: Buffer, got: seq<string>): Buffer
    requires CanCall(b, got)
  {
    if HasLine(b) then b else Buffer(AfterReads(Prepared(b), got), 0)
  }

  /** Where the line ends. */
  function EolOf(b: Buffer): (p: nat)
    requires HasLine(b)
    ensures p <= MAX_AT_RESPONSE
  {
    b.cur + RunLength(TextOf(b)) + NextEol(SkipRun(TextOf(b))).value
  }

  /** Its end becomes NUL, and the cursor goes behind it. */
  function CutBehind(b: Buffer): Buffer
    requires HasLine(b)
  {
    Buffer(b.cells[EolOf(b) := NUL], EolOf(b) + 1)
  }

  /** readline: the line, or nothing if a read fails; and the buffer afterwards. */
  function Call(b: Buffer, got: seq<string>): (Option<string>, Buffer)
    requires CanCall(b, got)
  {
    var s := Searched(b, got);
    if HasLine(s) then (Some(FirstLine(TextOf(s))), CutBehind(s))
    else (None, Buffer(Ditched(s.cells), RunLength(TextAt(Ditched(s.cells), 0))))
  }

  // ---------- where texts end ----------

  lemma {:induction false} TextEnds(c: Cells, i: nat, e: nat)
    requires i <= e <= MAX_AT_RESPONSE && c[e] == NUL && forall k :: i <= k < e ==> c[k] != NUL
    ensures TextAt(c, i) == c[i..e]
    decreases e - i
  {
    if i < e {
      TextEnds(c, i + 1, e);
    }
  }

  /** The text from a place inside a text. */
  lemma {:induction false} TextFrom(c: Cells, i: nat, n: nat)
    requires i + n <= MAX_AT_RESPONSE && n <= |TextAt(c, i)|
    ensures TextAt(c, i + n) == TextAt(c, i)[n..]
    decreases n
  {
    if n > 0 {
      TextFrom(c, i + 1, n - 1);
      assert TextAt(c, i)[n..] == TextAt(c, i + 1)[n - 1..];
    }
  }

  /** A loop over CR and LF from i that stops at p. */
  lemma RunEnds(c: Cells, i: nat, p: nat)
    requires i <= p <= MAX_AT_RESPONSE && !IsEol(c[p]) && forall k :: i <= k < p ==> IsEol(c[k])
    ensures RunLength(TextAt(c, i)) == p - i && TextAt(c, p) == SkipRun(TextAt(c, i))
  {
    var text := TextAt(c, i);
    assert c[i + |text|] == NUL;
    RunLengthIs(text, p - i);
    TextFrom(c, i, p - i);
  }

  /** From cell i the line goes on at least to cell p. */
  predicate IsOnLine(c: Cells, i: nat, p: nat) {
    && i <= p <= MAX_AT_RESPONSE
    && |TextAt(c, i)| == p - i + |TextAt(c, p)| && LineLength(TextAt(c, i)) == p - i + LineLength(TextAt(c, p))
  }

  lemma LineGoesOn(c: Cells, i: nat, p: nat)
    requires IsOnLine(c, i, p) && c[p] != NUL && !IsEol(c[p])
    ensures IsOnLine(c, i, p + 1)
  {
    assert TextAt(c, p)[1..] == TextAt(c, p + 1);
  }

  lemma LineStops(c: Cells, i: nat, p: nat)
    requires IsOnLine(c, i, p) && (c[p] == NUL || IsEol(c[p]))
    ensures LineLength(TextAt(c, i)) == p - i && (c[p] == NUL <==> |TextAt(c, i)| == p - i)
  {
  }

  lemma PromptIs(c: Cells, i: nat)
    requires i <= MAX_AT_RESPONSE
    ensures TextAt(c, i) == PROMPT <==>
      i + 2 <= MAX_AT_RESPONSE && c[i] == '>' && c[i + 1] == ' ' && c[i + 2] == NUL
  {
    if i + 2 <= MAX_AT_RESPONSE && c[i] == '>' && c[i + 1] == ' ' && c[i + 2] == NUL {
      TextEnds(c, i, i + 2);
    }
    var text := TextAt(c, i);
    assert text == PROMPT ==> text[0] == '>' && text[1] == ' ';
  }

  lemma OverwrittenText(c: Cells, text: string)
    requires |text| <= MAX_AT_RESPONSE && NUL !in text
    ensures TextAt(Overwritten(c, text), 0) == text
  {
    var d := Overwritten(c, text);
    assert forall k :: 0 <= k < |text| ==> d[k] == text[k];
    TextEnds(d, 0, |text|);
    assert d[0..|text|] == text;
  }

  /** The same cell by cell. */
  lemma IsOverwritten(c: Cells, text: string, d: Cells)
    requires |text| <= MAX_AT_RESPONSE && d[|text|] == NUL
    requires forall k :: 0 <= k < |text| ==> d[k] == text[k]
    requires forall k :: |text| < k <= MAX_AT_RESPONSE ==> d[k] == c[k]
    ensures d == Overwritten(c, text)
  {
  }

  lemma ReadOnceMore(c: Cells, got: seq<string>, chunk: string)
    requires CanReadAll(c, got) && NoLineIn(AfterReads(c, got)) && CanRead(AfterReads(c, got), chunk)
    ensures CanReadAll(c, got + [chunk]) && AfterReads(c, got + [chunk]) == AfterRead(AfterReads(c, got), chunk)
  {
    var g := got + [chunk];
    assert g[..|g| - 1] == got && g[|g| - 1] == chunk;
  }

  /** One more read, from what is in the cells afterwards. */
  lemma OneMoreRead(c: Cells, got: seq<string>, chunk: string, after: Cells)
    requires CanReadAll(c, got) && NoLineIn(AfterReads(c, got)) && chunk != "" && NUL !in chunk
    requires var d := Ditched(AfterReads(c, got));
      |TextAt(d, 0)| + |chunk| <= MAX_AT_RESPONSE && after == Overwritten(d, TextAt(d, 0) + chunk)
    ensures CanReadAll(c, got + [chunk]) && AfterReads(c, got + [chunk]) == after
    ensures |TextAt(after, 0)| == |TextAt(Ditched(AfterReads(c, got)), 0)| + |chunk|
  {
    var d := Ditched(AfterReads(c, got));
    ReadOnceMore(c, got, chunk);
    OverwrittenText(d, TextAt(d, 0) + chunk);
  }

  /** There are only newlines in front of cell n. */
  predicate IsBehindRun(c: Cells, n: nat) {
    n <= |TextAt(c, 0)| && AllEol(TextAt(c, 0), 0, n)
  }

  lemma StillBehindRun(c: Cells, chunk: string, after: Cells, n: nat)
    requires |TextAt(c, 0)| + |chunk| <= MAX_AT_RESPONSE && NUL !in chunk
    requires after == Overwritten(c, TextAt(c, 0) + chunk) && n == RunLength(TextAt(c, 0))
    ensures IsBehindRun(after, n)
  {
    OverwrittenText(c, TextAt(c, 0) + chunk);
  }

  /** findNextEOL at the cursor. */
  function EolAt(b: Buffer): Option<nat>
    requires IsInside(b)
  {
    var r := NextEol(TextOf(b));
    if r.Some? then Some(b.cur + r.value) else None
  }

  lemma EolBehindRun(b: Buffer, at: Buffer)
    requires IsInside(b) && IsInside(at) && at.cur == b.cur + RunLength(TextOf(b)) && TextOf(at) == SkipRun(TextOf(b))
    ensures EolAt(at) == if HasLine(b) then Some(EolOf(b)) else None
  {
  }

  /** The search from there is the search from the front. */
  lemma SameSearch(c: Cells, n: nat)
    requires IsBehindRun(c, n)
    ensures n + RunLength(TextAt(c, n)) == RunLength(TextAt(c, 0)) && SkipRun(TextAt(c, n)) == SkipRun(TextAt(c, 0))
  {
    TextFrom(c, 0, n);
    assert 0 + n == n;
    DropFromRun(TextAt(c, 0), n);
  }

  lemma SameLine(a: Buffer, b: Buffer)
    requires IsInside(a) && IsInside(b) && SkipRun(TextOf(a)) == SkipRun(TextOf(b))
    requires a.cur + RunLength(TextOf(a)) == b.cur + RunLength(TextOf(b))
    ensures HasLine(a) == HasLine(b) && (HasLine(a) ==> EolOf(a) == EolOf(b))
  {
  }

  lemma TextStarts(c: Cells, i: nat, n: nat)
    requires i <= MAX_AT_RESPONSE && n <= |TextAt(c, i)|
    ensures TextAt(c, i)[..n] == c[i..i + n]
  {
  }

  lemma FirstLineIs(b: Buffer)
    requires HasLine(b)
    ensures FirstLine(TextOf(b)) == b.cells[b.cur + RunLength(TextOf(b))..EolOf(b)]
  {
    var r := RunLength(TextOf(b));
    TextFrom(b.cells, b.cur, r);
    TextStarts(b.cells, b.cur + r, NextEol(SkipRun(TextOf(b))).value);
  }

  /** No line in the buffer, so none in the partial line at its front. */
  lemma PreparedText(b: Buffer)
    requires IsInside(b)
    ensures TextAt(Prepared(b), 0) == SkipRun(TextOf(b))
    ensures RunLength(SkipRun(TextOf(b))) == 0 && NoLineIn(Prepared(b)) == !HasLine(b)
  {
    OverwrittenText(b.cells, SkipRun(TextOf(b)));
    SkipRunTwice(TextOf(b));
  }

  lemma SkipRunTwice(c: string)
    ensures SkipRun(SkipRun(c)) == SkipRun(c) && RunLength(SkipRun(c)) == 0
  {
    RunLengthIs(SkipRun(c), 0);
  }
}
