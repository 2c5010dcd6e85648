/** The reader of length-prefixed records (librilutils/record_stream.c): a buffer that holds one
    record of maximal size must deliver the same records however the stream is cut into reads. */
module RecordStream {
  import opened Options

  type byte = x: int | 0 <= x < 256

  const HEADER_SIZE := 4
  const MAX_RECORD_LEN := 0xffff

  // ---------- the format ----------

  /** ntohl of the first four bytes */
  function Length(b: seq<byte>): (n: nat)
    requires |b| >= HEADER_SIZE
  {
    ((b[0] as int * 256 + b[1] as int) * 256 + b[2] as int) * 256 + b[3] as int
  }

  function Header(n: nat): (h: seq<byte>)
    requires n <= MAX_RECORD_LEN
    ensures |h| == HEADER_SIZE && Length(h) == n
  {
    [0, 0, n / 256, n % 256]
  }

  predicate Fits(records: seq<seq<byte>>, maxRecordLen: nat) {
    forall i :: 0 <= i < |records| ==> |records[i]| <= maxRecordLen
  }

  function Encode(records: seq<seq<byte>>): seq<byte>
    requires Fits(records, MAX_RECORD_LEN)
  {
    if records == [] then []
    else Header(|records[0]|) + records[0] + Encode(records[1..])
  }

  /** Where the first record of the bytes ends, if it is there in full. */
  function FirstEnd(b: seq<byte>): (end: Option<nat>)
    ensures end.Some? ==> HEADER_SIZE <= end.value <= |b|
  {
    if |b| < HEADER_SIZE || |b| < HEADER_SIZE + Length(b) then None
    else Some(HEADER_SIZE + Length(b))
  }

  /** More bytes behind a complete record change nothing about it. */
  lemma FirstEndStays(a: seq<byte>, b: seq<byte>)
    ensures |a| >= HEADER_SIZE ==> Length(a + b) == Length(a)
    ensures FirstEnd(a).Some? ==> FirstEnd(a + b) == FirstEnd(a)
  {
  }

  lemma FirstOf(header: seq<byte>, data: seq<byte>, rest: seq<byte>)
    requires |header| == HEADER_SIZE && Length(header) == |data|
    ensures var all := header + data + rest;
      && FirstEnd(all) == Some(HEADER_SIZE + |data|)
      && all[HEADER_SIZE..HEADER_SIZE + |data|] == data && all[HEADER_SIZE + |data|..] == rest
  {
    FirstEndStays(header, data + rest);
    assert header + data + rest == header + (data + rest);
  }

  lemma FirstOfEncoded(records: seq<seq<byte>>)
    requires Fits(records, MAX_RECORD_LEN)
    ensures records == [] ==> Encode(records) == []
    ensures records != [] ==>
      && FirstEnd(Encode(records)) == Some(HEADER_SIZE + |records[0]|)
      && Encode(records)[HEADER_SIZE..HEADER_SIZE + |records[0]|] == records[0]
      && Encode(records)[HEADER_SIZE + |records[0]|..] == Encode(records[1..])
  {
    if records != [] {
      FirstOf(Header(|records[0]|), records[0], Encode(records[1..]));
    }
  }

  // ---------- the reader ----------

  datatype Result =
    | Record(data: seq<byte>)
    | EndOfStream       // 0 with no record
    | TryAgain          // -1, EAGAIN
    | ReadFailed        // -1 from read
    | TooBig            // the assert(0), EFBIG

  class Reader {
    const maxRecordLen: nat
    const buffer: array<byte>
    var unconsumed: nat
    var readEnd: nat
    /** What the descriptor has yet to deliver. */
    var input: seq<byte>

    ghost predicate Valid()
      reads this
    {
      && maxRecordLen <= MAX_RECORD_LEN
      && buffer.Length == maxRecordLen + HEADER_SIZE
      && unconsumed <= readEnd <= buffer.Length
    }

    function Buffered(): seq<byte>
      requires Valid()
      reads this, buffer
    {
      buffer[unconsumed..readEnd]
    }

    /** The part of the stream that no record has been made of yet. */
    function Remaining(): seq<byte>
      requires Valid()
      reads this, buffer
    {
      Buffered() + input
    }

    /** record_stream_new */
    constructor (maxRecordLen: nat, input: seq<byte>)
      requires maxRecordLen <= MAX_RECORD_LEN
      ensures Valid() && fresh(buffer) && this.maxRecordLen == maxRecordLen
      ensures Remaining() == input
    {
      this.maxRecordLen := maxRecordLen;
      buffer := new byte[maxRecordLen + HEADER_SIZE](_ => 0);
      unconsumed, readEnd, this.input := 0, 0, input;
    }

    /** getNextRecord */
    method GetNextRecord() returns (r: Option<seq<byte>>)
      requires Valid()
      modifies this`unconsumed
      ensures Valid()
      ensures r.Some? <==> FirstEnd(old(Buffered())).Some?
      ensures r.None? ==> unconsumed == old(unconsumed)
      ensures r.Some? ==>
        var end := FirstEnd(old(Buffered())).value;
        r.value == old(Buffered())[HEADER_SIZE..end] && Buffered() == old(Buffered())[end..]
    {
      if readEnd < unconsumed + HEADER_SIZE {
        return None;
      }
      var len := Length(buffer[unconsumed..readEnd]);
      if readEnd < unconsumed + HEADER_SIZE + len {
        return None;
      }
      var start := unconsumed + HEADER_SIZE;
      unconsumed := start + len;
      r := Some(buffer[start..start + len]);
    }

    /** memmove of the remainder to the start of the buffer. */
    method MoveToFront()
      requires Valid()
      modifies this`unconsumed, this`readEnd, buffer
      ensures Valid() && unconsumed == 0 && Buffered() == old(Buffered())
    {
      if unconsumed != 0 {
        var toMove := readEnd - unconsumed;
        forall i | 0 <= i < toMove {
          buffer[i] := buffer[unconsumed + i];
        }
        readEnd := toMove;
        unconsumed := 0;
      }
    }

    /** read: some of the bytes asked for, or none at the end of the stream, or a failure. */
    method Read() returns (count: int)
      requires Valid() && readEnd < buffer.Length
      modifies this`input, buffer
      ensures -1 <= count <= buffer.Length - readEnd
      ensures count == 0 ==> input == []
      ensures Valid() && buffer[..readEnd] == old(buffer[..readEnd])
      ensures if count <= 0 then input == old(input)
              else count <= |old(input)| && input == old(input)[count..]
                   && buffer[readEnd..readEnd + count] == old(input)[..count]
    {
      var fails: bool := *;
      if fails {
        return -1;
      }
      if input == [] {
        return 0;
      }
      count :| 0 < count <= buffer.Length - readEnd && count <= |input|;
      forall i | 0 <= i < count {
        buffer[readEnd + i] := input[i];
      }
      input := input[count..];
    }

    /** record_stream_get_next, on any stream of bytes. What it returns is the first record of the
        stream, which it takes away; nothing else takes anything away. The stream is said to have
        ended only when it has, and a record is too big only when its header says so. */
    method GetNext() returns (r: Result)
      requires Valid()
      modifies this`unconsumed, this`readEnd, this`input, buffer
      ensures Valid()
      ensures r.Record? ==>
        && FirstEnd(old(Remaining())).Some?
        && r.data == old(Remaining())[HEADER_SIZE..FirstEnd(old(Remaining())).value]
        && Remaining() == old(Remaining())[FirstEnd(old(Remaining())).value..]
      ensures !r.Record? ==> Remaining() == old(Remaining())
      ensures r.EndOfStream? ==> input == [] && FirstEnd(old(Remaining())).None?
      ensures |input| <= |old(input)| && (r.TryAgain? ==> |input| < |old(input)|)
      ensures r.TooBig? ==> |old(Remaining())| >= HEADER_SIZE && Length(old(Remaining())) > maxRecordLen
    {
      ghost var was := Buffered();
      FirstEndStays(was, input);
      var next := GetNextRecord();
      if next.Some? {
        return Record(next.value);
      }
      if unconsumed == 0 && readEnd == buffer.Length {
        return TooBig;
      }
      MoveToFront();
      assert Buffered() == was;
      r := ReadAndTry();
    }

    /** The second half: one read, and another look at the buffer. */
    method ReadAndTry() returns (r: Result)
      requires Valid() && unconsumed == 0 && readEnd < buffer.Length && FirstEnd(Buffered()).None?
      modifies this`unconsumed, this`readEnd, this`input, buffer
      ensures Valid()
      ensures r.Record? ==>
        && FirstEnd(old(Remaining())).Some?
        && r.data == old(Remaining())[HEADER_SIZE..FirstEnd(old(Remaining())).value]
        && Remaining() == old(Remaining())[FirstEnd(old(Remaining())).value..]
      ensures !r.Record? ==> Remaining() == old(Remaining())
      ensures r.EndOfStream? ==> input == [] && FirstEnd(old(Remaining())).None?
      ensures |input| <= |old(input)| && (r.TryAgain? ==> |input| < |old(input)|)
      ensures !r.TooBig?
    {
      ghost var all := Remaining();
      var count := Read();
      assert Remaining() + [] == Remaining();
      if count <= 0 {
        assert Remaining() == all;
        assert count == 0 ==> all == Buffered();
        return if count == 0 then EndOfStream else ReadFailed;
      }
      readEnd := readEnd + count;
      assert Remaining() == all;
      FirstEndStays(Buffered(), input);
      var next := GetNextRecord();
      if next.None? {
        return TryAgain;
      }
      r := Record(next.value);
    }

    /** Whatever the reads return, the records handed out by any number of calls are the first records
        of the stream, in order; once the stream is said to have ended they are all of them, and
        only failing reads can put that off for long. No record that fits is ever too big. */
    method Drain(calls: nat, ghost records: seq<seq<byte>>)
        returns (out: seq<seq<byte>>, ended: bool, failures: nat)
      requires Valid() && Fits(records, maxRecordLen) && Remaining() == Encode(records)
      modifies this`unconsumed, this`readEnd, this`input, buffer
      ensures Valid() && out <= records && Remaining() == Encode(records[|out|..])
      ensures ended ==> out == records
      ensures ended || calls <= |records| + |old(input)| + failures
    {
      out, ended, failures := [], false, 0;
      var i := 0;
      while i < calls && !ended
        invariant i <= calls
        invariant Valid() && out <= records && Remaining() == Encode(records[|out|..])
        invariant ended ==> out == records
        invariant |input| <= |old(input)|
        invariant ended || i <= |out| + (|old(input)| - |input|) + failures
      {
        ghost var rest := records[|out|..];
        FirstOfEncoded(rest);
        if rest != [] {
          HeaderTells(rest);
        }
        var r := GetNext();
        assert !r.TooBig?;
        if r.Record? {
          assert rest[0] == records[|out|] && rest[1..] == records[|out| + 1..];
          out := out + [r.data];
        } else if r.ReadFailed? {
          failures := failures + 1;
        }
        ended := r.EndOfStream?;
        i := i + 1;
      }
    }
  }

  lemma HeaderTells(records: seq<seq<byte>>)
    requires Fits(records, MAX_RECORD_LEN) && records != []
    ensures |Encode(records)| >= HEADER_SIZE && Length(Encode(records)) == |records[0]|
  {
    FirstEndStays(Header(|records[0]|), records[0] + Encode(records[1..]));
    assert Encode(records) == Header(|records[0]|) + (records[0] + Encode(records[1..]));
  }
}
