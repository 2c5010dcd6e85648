/** The tokenizer of sprd-ril/at_tok.c on its buffer: it moves a pointer through a C string and
    overwrites the delimiters with NUL. */
module AtTokBuffer {
  import opened AtTok
  import opened Options

  const NUL := '\0'

  predicate Terminated(s: seq<char>) {
    s != [] && s[|s| - 1] == NUL
  }

  /** strlen of the C string that starts at `p` */
  function Length(s: seq<char>, p: nat): (n: nat)
    requires Terminated(s) && p < |s|
    ensures p + n < |s| && s[p + n] == NUL && forall i :: p <= i < p + n ==> s[i] != NUL
    decreases |s| - p
  {
    if s[p] == NUL then 0 else 1 + Length(s, p + 1)
  }

  /** The C string that starts at `p`. */
  function StringAt(s: seq<char>, p: nat): (r: string)
    requires Terminated(s) && p < |s|
    ensures |r| == Length(s, p)
  {
    s[p..p + Length(s, p)]
  }

  lemma {:induction false} LengthIs(s: seq<char>, p: nat, n: nat)
    requires Terminated(s) && p + n < |s| && s[p + n] == NUL && forall i :: p <= i < p + n ==> s[i] != NUL
    ensures Length(s, p) == n
    decreases n
  {
    if n > 0 {
      LengthIs(s, p + 1, n - 1);
    }
  }

  /** A NUL cuts the strings that contain its place, and leaves the others alone. */
  lemma WrittenNul(s: seq<char>, p: nat, k: nat)
    requires Terminated(s) && p < |s| && k < |s|
    ensures var t := StringAt(s, p);
      StringAt(s[k := NUL], p) == if p <= k <= p + |t| then t[..k - p] else t
  {
    LengthIs(s[k := NUL], p, if p <= k <= p + Length(s, p) then k - p else Length(s, p));
  }

  /** Strings that end before `limit` are the same in both. */
  ghost predicate KeepsStringsBefore(s: seq<char>, w: seq<char>, limit: int) {
    && Terminated(s) && Terminated(w) && |s| == |w|
    && forall p: nat :: p < |s| && p + Length(s, p) < limit ==> StringAt(w, p) == StringAt(s, p)
  }

  lemma CutAt(s: seq<char>, start: nat, k: nat)
    requires Terminated(s) && start <= k < |s| && k < start + Length(s, start)
    ensures var t, w := StringAt(s, start), s[k := NUL];
      && Terminated(w) && k + 1 < |w|
      && StringAt(w, start) == t[..k - start] && StringAt(w, k + 1) == t[k - start + 1..]
      && KeepsStringsBefore(s, w, start)
  {
    var t, w := StringAt(s, start), s[k := NUL];
    WrittenNul(s, start, k);
    LengthIs(w, k + 1, start + |t| - (k + 1));
    forall p: nat | p < |s| && p + Length(s, p) < start ensures StringAt(w, p) == StringAt(s, p) {
      WrittenNul(s, p, k);
    }
  }

  lemma CutLength(w: seq<char>, s: seq<char>, start: nat, n: nat)
    requires Terminated(s) && Terminated(w) && start < |s| == |w| && n <= Length(s, start)
    requires StringAt(w, start) == StringAt(s, start)[..n]
    ensures Length(w, start) == n
  {
    assert |StringAt(w, start)| == n;
  }

  lemma BehindFlag(all: string, k: nat)
    requires k < |all|
    ensures all[k..][1..] == all[k + 1..]
  {
  }

  class Tokenizer {
    const text: array<char>
    /** *p_cur; -1 for NULL */
    var cur: int

    predicate Valid()
      reads this, text
    {
      Terminated(text[..]) && -1 <= cur < text.Length
    }

    /** What the pointer points at. */
    function View(): Option<string>
      requires Valid()
      reads this, text
    {
      if cur == -1 then None else Some(StringAt(text[..], cur))
    }

    constructor (text: array<char>, cur: nat)
      requires Terminated(text[..]) && cur < text.Length
      ensures Valid() && this.text == text && this.cur == cur
    {
      this.text, this.cur := text, cur;
    }

    /** at_tok_start and at_tok_flag_start */
    method Start(flag: char) returns (err: int)
      requires Valid() && flag != NUL
      modifies this`cur
      ensures Valid() && View() == if old(View()).None? then None else AtTok.Start(old(View()).value, flag)
      ensures err == if View().None? then -1 else 0
    {
      if cur == -1 {
        return -1;
      }
      ghost var all := View().value;
      var found := Scan(flag);
      if !found {
        cur := -1;
        return -1;
      }
      BehindFlag(all, Find(all, flag));
      Advance();
      err := 0;
    }

    /** Moves on by one character. */
    method Advance()
      requires Valid() && cur != -1 && text[cur] != NUL
      modifies this`cur
      ensures Valid() && cur == old(cur) + 1 && View() == Some(old(View()).value[1..])
    {
      cur := cur + 1;
    }

    method SkipSpaces()
      requires Valid()
      modifies this`cur
      ensures Valid() && old(cur) <= cur && (old(cur) != -1 ==> cur != -1)
      ensures View() == if old(View()).None? then None else Some(SkipWhiteSpace(old(View()).value))
    {
      if cur == -1 {
        return;
      }
      while text[cur] != NUL && IsSpace(text[cur])
        invariant Valid() && old(cur) <= cur && cur != -1
        invariant SkipWhiteSpace(View().value) == SkipWhiteSpace(old(View()).value)
        decreases text.Length - cur
      {
        Advance();
      }
    }

    /** The loops that look for a character up to the end of the string. */
    method Scan(c: char) returns (found: bool)
      requires Valid() && cur != -1 && c != NUL
      modifies this`cur
      ensures Valid() && cur == old(cur) + Find(old(View()).value, c)
      ensures View() == Some(old(View()).value[Find(old(View()).value, c)..])
      ensures found <==> Find(old(View()).value, c) < |old(View()).value|
      ensures found <==> text[cur] == c
    {
      ghost var all := View().value;
      while text[cur] != NUL && text[cur] != c
        invariant Valid() && old(cur) <= cur <= old(cur) + |all|
        invariant View() == Some(all[cur - old(cur)..])
        invariant forall i :: 0 <= i < cur - old(cur) ==> all[i] != c
        decreases text.Length - cur
      {
        assert all[cur - old(cur)..][0] == text[cur];
        Advance();
      }
      FindIs(all, c, cur - old(cur));
      found := text[cur] == c;
    }

    method SkipToNextComma()
      requires Valid()
      modifies this`cur
      ensures Valid() && old(cur) <= cur && (old(cur) != -1 ==> cur != -1)
      ensures View() == if old(View()).None? then None else Some(SkipNextComma(old(View()).value))
    {
      if cur == -1 {
        return;
      }
      var found := Scan(',');
      if found {
        Advance();
      }
    }

    /** The delimiter becomes the NUL that ends the string it is in. */
    method Cut(ghost start: nat)
      requires Valid() && start <= cur
      requires cur < start + Length(text[..], start)
      modifies this`cur, text
      ensures Valid() && cur == old(cur) + 1 && text[..] == old(text[..])[old(cur) := NUL]
      ensures View() == Some(old(StringAt(text[..], start)[cur - start + 1..]))
      ensures StringAt(text[..], start) == old(StringAt(text[..], start)[..cur - start])
      ensures KeepsStringsBefore(old(text[..]), text[..], start)
    {
      CutAt(text[..], start, cur);
      text[cur] := NUL;
      cur := cur + 1;
    }

    /** strsep */
    method Separate(delim: char) returns (token: nat)
      requires Valid() && cur != -1 && delim != NUL
      modifies this`cur, text
      ensures Valid() && token == old(cur) && token < text.Length
      ensures StringAt(text[..], token) == StrSep(old(View()).value, delim).0
      ensures View() == StrSep(old(View()).value, delim).1
      ensures cur != -1 ==> cur == token + Length(text[..], token) + 1
      ensures KeepsStringsBefore(old(text[..]), text[..], token)
    {
      token := cur;
      ghost var before, all := text[..], View().value;
      var found := Scan(delim);
      if found {
        Cut(token);
        CutLength(text[..], before, token, cur - 1 - token);
      } else {
        cur := -1;
      }
    }

    /** nextTok. The tokens returned by earlier calls lie in front of the pointer and stay intact. */
    method NextToken() returns (token: int)
      requires Valid()
      modifies this`cur, text
      ensures Valid()
      ensures old(View()).None? ==> token == -1 && View() == None && text[..] == old(text[..])
      ensures old(View()).Some? ==>
        && old(cur) <= token < text.Length
        && (StringAt(text[..], token), View()) == NextTok(old(View()).value)
        && (cur != -1 ==> token + Length(text[..], token) < cur)
      ensures KeepsStringsBefore(old(text[..]), text[..], old(cur))
    {
      SkipSpaces();
      if cur == -1 {
        return -1;
      }
      if text[cur] == '"' {
        Advance();
        token := Separate('"');
        SkipToNextComma();
      } else {
        token := Separate(',');
      }
    }

    /** at_tok_nextstr */
    method NextStr() returns (err: int, token: int)
      requires Valid()
      modifies this`cur, text
      ensures Valid() && KeepsStringsBefore(old(text[..]), text[..], old(cur))
      ensures old(View()).None? ==> err == -1 && View() == None
      ensures old(View()).Some? ==>
        && err == 0 && old(cur) <= token < text.Length
        && (StringAt(text[..], token), View()) == NextTok(old(View()).value)
        && (cur != -1 ==> token + Length(text[..], token) < cur)
    {
      if cur == -1 {
        return -1, -1;
      }
      token := NextToken();
      err := 0;
    }

    /** at_tok_nextint */
    method NextInt() returns (err: int, value: int)
      requires Valid()
      modifies this`cur, text
      ensures Valid() && KeepsStringsBefore(old(text[..]), text[..], old(cur))
      ensures old(View()).None? ==> err == -1 && View() == None
      ensures old(View()).Some? ==>
        var (token, rest) := NextTok(old(View()).value);
        && View() == rest
        && err == (if StrToL(token).Some? then 0 else -1)
        && (err == 0 ==> value == ToInt(StrToL(token).value))
    {
      value := 0;
      if cur == -1 {
        return -1, value;
      }
      var token := NextToken();
      var l := StrToL(StringAt(text[..], token));
      if l.None? {
        return -1, value;
      }
      err, value := 0, ToInt(l.value);
    }

    method AtTokHasMore() returns (r: bool)
      requires Valid()
      ensures r <==> HasMore(View())
    {
      r := !(cur == -1 || text[cur] == NUL);
    }
  }
}
