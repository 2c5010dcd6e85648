/** The line reader of an AT channel (sprd-ril/atchannel.c), in place: a buffer with a moving cursor. */
module AtReader {
  import opened AtBuffer
  import opened AtLines
  import opened AtPrompt
  import opened Options

  class LineReader {
    const buf: array<char>
    var cur: nat
    /** What the file descriptor has still to deliver. */
    var input: string

    ghost predicate Valid()
      reads this, buf
    {
      buf.Length == MAX_AT_RESPONSE + 1 && buf[MAX_AT_RESPONSE] == NUL && NUL !in input
    }

    ghost function Memory(): Cells
      reads this, buf
      requires Valid()
    {
      buf[..]
    }

    ghost function State(): Buffer
      reads this, buf
      requires Valid()
    {
      Buffer(Memory(), cur)
    }

    constructor (stream: string)
      requires NUL !in stream
      ensures Valid() && fresh(buf) && State() == EMPTY && input == stream
    {
      buf := new char[MAX_AT_RESPONSE + 1](_ => NUL);
      cur, input := 0, stream;
      new;
      assert buf[..] == EMPTY.cells;
    }

    method FindNextEol() returns (eol: Option<nat>)
      requires Valid() && cur <= MAX_AT_RESPONSE
      ensures eol == EolAt(State())
    {
      PromptIs(Memory(), cur);
      if buf[cur] == '>' && buf[cur + 1] == ' ' && buf[cur + 2] == NUL {
        return Some(cur + 2);
      }
      eol := FindEol();
    }

    method FindEol() returns (eol: Option<nat>)
      requires Valid() && cur <= MAX_AT_RESPONSE
      ensures var (text, n) := (TextAt(Memory(), cur), LineLength(TextAt(Memory(), cur)));
        eol == if n < |text| then Some(cur + n) else None
    {
      var p := cur;
      ghost var c := Memory();
      while buf[p] != NUL && buf[p] != '\r' && buf[p] != '\n'
        invariant IsOnLine(c, cur, p)
        decreases MAX_AT_RESPONSE - p
      {
        LineGoesOn(c, cur, p);
        p := p + 1;
      }
      LineStops(c, cur, p);
      eol := if buf[p] == NUL then None else Some(p);
    }

    /** Moves the cursor over leading newlines. */
    method SkipNewlines()
      requires Valid() && cur <= MAX_AT_RESPONSE
      modifies this`cur
      ensures cur <= MAX_AT_RESPONSE && cur == old(cur) + RunLength(old(TextOf(State())))
      ensures TextOf(State()) == SkipRun(old(TextOf(State())))
    {
      while buf[cur] == '\r' || buf[cur] == '\n'
        invariant old(cur) <= cur <= MAX_AT_RESPONSE
        invariant forall k :: old(cur) <= k < cur ==> IsEol(buf[k])
        decreases MAX_AT_RESPONSE - cur
      {
        cur := cur + 1;
      }
      RunEnds(Memory(), old(cur), cur);
    }

    method StrLen() returns (len: nat)
      requires Valid() && cur <= MAX_AT_RESPONSE
      ensures len == |TextOf(State())|
    {
      len := 0;
      while buf[cur + len] != NUL
        invariant cur + len <= MAX_AT_RESPONSE
        invariant forall k :: cur <= k < cur + len ==> buf[k] != NUL
        decreases MAX_AT_RESPONSE - len
      {
        len := len + 1;
      }
      TextEnds(Memory(), cur, cur + len);
    }

    /** memmove to the front of the buffer. */
    method Move(len: nat)
      requires Valid() && cur <= MAX_AT_RESPONSE && len == |TextOf(State())|
      modifies buf
      ensures Valid() && Memory() == Overwritten(old(Memory()), old(TextOf(State())))
    {
      ghost var text, before := TextOf(State()), Memory();
      forall k | 0 <= k < len + 1 {
        buf[k] := buf[cur + k];
      }
      IsOverwritten(before, text, Memory());
    }

    /** The partial line goes to the front of the buffer. */
    method MoveToFront() returns (read: nat)
      requires Valid() && cur <= MAX_AT_RESPONSE
      modifies this`cur, buf
      ensures Valid() && cur == 0 && read == |old(TextOf(State()))|
      ensures Memory() == Overwritten(old(Memory()), old(TextOf(State())))
    {
      read := StrLen();
      Move(read);
      cur := 0;
    }

    /** What a read() brings, and its NUL. */
    method Store(read: nat, chunk: string)
      requires Valid() && read == |TextAt(Memory(), 0)| && read + |chunk| <= MAX_AT_RESPONSE
      modifies buf
      ensures Valid() && Memory() == Overwritten(old(Memory()), old(TextAt(Memory(), 0)) + chunk)
    {
      ghost var text, before := TextAt(Memory(), 0), Memory();
      forall k | 0 <= k < |chunk| {
        buf[read + k] := chunk[k];
      }
      buf[read + |chunk|] := NUL;
      IsOverwritten(before, text + chunk, Memory());
    }

    /** One read() into the buffer behind the text at its front; a count below 1 is an error or the end
        of the file. */
    method Receive(read: nat) returns (count: int, ghost chunk: string)
      requires Valid() && read == |TextAt(Memory(), 0)| < MAX_AT_RESPONSE
      modifies this`input, buf
      ensures Valid() && old(input) == chunk + input
      ensures count <= 0 ==> chunk == "" && Memory() == old(Memory())
      ensures count > 0 ==>
        && count == |chunk| && NUL !in chunk && read + count <= MAX_AT_RESPONSE
        && Memory() == Overwritten(old(Memory()), old(TextAt(Memory(), 0)) + chunk)
    {
      count :| -1 <= count <= MAX_AT_RESPONSE - read && count <= |input|;
      chunk := "";
      if count > 0 {
        Store(read, input[..count]);
        chunk := input[..count];
        assert input == input[..count] + input[count..];
        input := input[count..];
      }
    }

    /** findNextEOL has been asked about the text at the cursor, which is behind newlines only. */
    ghost predicate IsAsked(b: Buffer, eol: Option<nat>)
      reads this, buf
      requires Valid() && IsInside(b)
    {
      && Memory() == b.cells && cur == b.cur + RunLength(TextOf(b))
      && eol == if HasLine(b) then Some(EolOf(b)) else None
    }

    method SkipAndFind() returns (eol: Option<nat>)
      requires Valid() && cur <= MAX_AT_RESPONSE
      modifies this`cur
      ensures cur <= MAX_AT_RESPONSE && IsAsked(old(State()), eol) && TextOf(State()) == SkipRun(old(TextOf(State())))
    {
      ghost var b := State();
      SkipNewlines();
      eol := FindNextEol();
      EolBehindRun(b, State());
    }

    /** The part of readline before its loop: a line that is in the buffer already, or a buffer with
        the partial line at its front. */
    method Prepare() returns (eol: Option<nat>, read: nat)
      requires Valid() && cur <= MAX_AT_RESPONSE
      modifies this`cur, buf
      ensures Valid() && (eol.Some? <==> HasLine(old(State())))
      ensures eol.Some? ==> IsAsked(old(State()), eol)
      ensures eol.None? ==> Memory() == Prepared(old(State())) && cur == 0 && read == |TextAt(Memory(), 0)|
    {
      eol, read := None, 0;
      PreparedText(State());
      if buf[cur] == NUL {
        ghost var before := Memory();
        cur := 0;
        buf[cur] := NUL;
        IsOverwritten(before, "", Memory());
        return;
      }
      eol := SkipAndFind();
      if eol.None? {
        read := MoveToFront();
      }
    }

    /** The loop is about to read: what it has read so far brought no line. */
    ghost predicate Underway(c: Cells, got: seq<string>, read: nat)
      reads this, buf
      requires Valid()
    {
      && CanReadAll(c, got) && Memory() == AfterReads(c, got) && NoLineIn(Memory())
      && cur == RunLength(TextAt(Memory(), 0)) && read == |TextAt(Memory(), 0)|
    }

    /** A line that exceeds the buffer is ditched. */
    method Ditch(read: nat) returns (read': nat)
      requires Valid() && cur <= MAX_AT_RESPONSE
      requires cur == RunLength(TextAt(Memory(), 0)) && read == |TextAt(Memory(), 0)|
      modifies this`cur, buf
      ensures Valid() && Memory() == Ditched(old(Memory())) && read' == |TextAt(Memory(), 0)| < MAX_AT_RESPONSE
      ensures cur == RunLength(TextAt(Memory(), 0))
    {
      read' := read;
      if MAX_AT_RESPONSE - read == 0 {
        cur := 0;
        buf[cur] := NUL;
        read' := 0;
      }
    }

    /** One round of the loop up to the search: a read. */
    method ReadOnce(read0: nat, ghost c: Cells, ghost got: seq<string>)
      returns (count: int, read: nat, ghost got': seq<string>)
      requires Valid() && Underway(c, got, read0)
      modifies this`cur, this`input, buf
      ensures Valid() && Concat(got) + old(input) == Concat(got') + input
      ensures count <= 0 ==> got' == got && Memory() == Ditched(old(Memory())) && cur == RunLength(TextAt(Memory(), 0))
      ensures count > 0 ==>
        && CanReadAll(c, got') && Memory() == AfterReads(c, got') && read == |TextAt(Memory(), 0)|
        && |input| < |old(input)| && IsBehindRun(Memory(), cur)
    {
      read := Ditch(read0);
      ghost var before := Memory();
      ghost var chunk: string;
      count, chunk := Receive(read);
      got' := got;
      if count > 0 {
        RoundIsDone(c, got, chunk, before, Memory(), cur, input);
        got' := got + [chunk];
        read := read + count;
      }
    }

    /** The search of a round. */
    method Search() returns (eol: Option<nat>)
      requires Valid() && IsBehindRun(Memory(), cur)
      modifies this`cur
      ensures IsAsked(Buffer(old(Memory()), 0), eol)
    {
      SameSearch(Memory(), cur);
      SameLine(State(), Buffer(Memory(), 0));
      eol := SkipAndFind();
    }

    /** The loop of readline: read and search until a line is complete or a read fails. */
    method ReadUntilLine(read0: nat, ghost c: Cells) returns (eol: Option<nat>, ghost got: seq<string>)
      requires Valid() && Underway(c, [], read0)
      modifies this`cur, this`input, buf
      ensures Valid() && old(input) == Concat(got) + input && CanReadAll(c, got)
      ensures var s := AfterReads(c, got);
        if NoLineIn(s) then eol.None? && State() == Buffer(Ditched(s), RunLength(TextAt(Ditched(s), 0)))
        else IsAsked(Buffer(s, 0), eol)
    {
      var read := read0;
      eol, got := None, [];
      while eol.None?
        invariant Valid() && old(input) == Concat(got) + input
        invariant eol.None? ==> Underway(c, got, read)
        invariant eol.Some? ==> CanReadAll(c, got) && IsAsked(Buffer(AfterReads(c, got), 0), eol)
        decreases eol.None?, |input|
      {
        var count: int;
        count, read, got := ReadOnce(read, c, got);
        if count <= 0 {
          return None, got;
        }
        eol := Search();
      }
    }

    /** The line that ends at `eol` is terminated in place and handed out; the cursor goes behind it,
        which for a prompt is behind the NUL. */
    method Cut(eol: nat, ghost b: Buffer) returns (line: string)
      requires Valid() && HasLine(b) && IsAsked(b, Some(eol))
      modifies this`cur, buf
      ensures Valid() && line == FirstLine(TextOf(b)) && State() == CutBehind(b)
    {
      FirstLineIs(b);
      line := buf[cur..eol];
      buf[eol] := NUL;
      cur := eol + 1;
    }

    /** readline: the line in front of what is buffered and read, or nothing when a read fails first; and
        the whole buffer afterwards. */
    method ReadLine() returns (line: Option<string>, ghost got: seq<string>)
      requires Valid() && cur <= MAX_AT_RESPONSE
      modifies this`cur, this`input, buf
      ensures Valid() && old(input) == Concat(got) + input && CanCall(old(State()), got)
      ensures (line, State()) == Call(old(State()), got)
    {
      ghost var b := State();
      var eol: Option<nat>;
      var read: nat;
      eol, read := Prepare();
      got := [];
      if eol.None? {
        PreparedText(b);
        eol, got := ReadUntilLine(read, Prepared(b));
      }
      if eol.None? {
        return None, got;
      }
      var l := Cut(eol.value, Searched(b, got));
      line := Some(l);
    }

    /** One more call of a run of calls. */
    method NextLine(lines: seq<string>, ghost b: Buffer, ghost gots: seq<seq<string>>)
      returns (after: seq<string>, ghost got: seq<string>)
      requires Valid() && cur <= MAX_AT_RESPONSE
      requires CanRun(b, gots) && State() == AfterRun(b, gots) && lines == Heard(b, gots)
      modifies this`cur, this`input, buf
      ensures Valid() && CanRun(b, gots + [got])
      ensures State() == AfterRun(b, gots + [got]) && after == Heard(b, gots + [got])
      ensures Concat(AllReads(gots)) + old(input) == Concat(AllReads(gots + [got])) + input
    {
      var line: Option<string>;
      line, got := ReadLine();
      RunGoesOn(b, gots, got, input);
      after := lines + if line.Some? then [line.value] else [];
    }

    /** What the reader thread sees of any number of calls, up to one that takes the cursor out of the
        array: the lines of that run of calls. If the stream fits and is unambiguous and no prompt leaves
        anything in the buffer, these are the first lines of the stream, however it was cut, and all of
        them when it has ended. */
    method Drain(calls: nat) returns (lines: seq<string>, ghost gots: seq<seq<string>>)
      requires Valid() && cur <= MAX_AT_RESPONSE
      modifies this`cur, this`input, buf
      ensures Valid() && old(input) == Concat(AllReads(gots)) + input
      ensures CanRun(old(State()), gots) && State() == AfterRun(old(State()), gots)
      ensures lines == Heard(old(State()), gots)
      ensures |gots| == calls || (|gots| < calls && cur > MAX_AT_RESPONSE)
      ensures IsClean(old(State()), gots) && Fits(SkipRun(old(TextOf(State()))) + old(input))
              && Unambiguous(old(TextOf(State()) + input)) ==>
        && cur <= MAX_AT_RESPONSE && lines <= Lines(old(TextOf(State()) + input))
        && (input == "" && !HasLine(State()) ==> lines == Lines(old(TextOf(State()) + input)))
    {
      ghost var b := State();
      lines, gots := [], [];
      assert input == Concat(AllReads(gots)) + input;
      var i := 0;
      while i < calls && cur <= MAX_AT_RESPONSE
        invariant Valid() && old(input) == Concat(AllReads(gots)) + input
        invariant CanRun(b, gots) && State() == AfterRun(b, gots) && lines == Heard(b, gots) && |gots| == i <= calls
      {
        ghost var got: seq<string>;
        lines, got := NextLine(lines, b, gots);
        gots := gots + [got];
        i := i + 1;
      }
      if IsClean(b, gots) && Fits(SkipRun(TextOf(b)) + old(input)) && Unambiguous(TextOf(b) + old(input)) {
        LinesComeOut(b, gots, input);
        RunFits(b, gots, input);
      }
    }
  }

  lemma RoundIsDone(c: Cells, got: seq<string>, chunk: string, before: Cells, after: Cells, n: nat, input: string)
    requires CanReadAll(c, got) && NoLineIn(AfterReads(c, got)) && chunk != "" && NUL !in chunk
    requires before == Ditched(AfterReads(c, got)) && n == RunLength(TextAt(before, 0))
    requires |TextAt(before, 0)| + |chunk| <= MAX_AT_RESPONSE && after == Overwritten(before, TextAt(before, 0) + chunk)
    ensures CanReadAll(c, got + [chunk]) && AfterReads(c, got + [chunk]) == after
    ensures |TextAt(after, 0)| == |TextAt(before, 0)| + |chunk| && IsBehindRun(after, n)
    ensures Concat(got) + (chunk + input) == Concat(got + [chunk]) + input
  {
    OneMoreRead(c, got, chunk, after);
    StillBehindRun(before, chunk, after, n);
    ConcatOneMore(got, chunk, input);
  }
}
