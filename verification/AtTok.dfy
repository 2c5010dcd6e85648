/** The tokenizer of AT lines (sprd-ril/at_tok.c), on strings: what each call returns and what it
    leaves of the text. AtTokBuffer does the same in place. */
module AtTok {
  import opened Options

  // ---------- C library functions ----------

  predicate IsSpace(c: char) {
    c == ' ' || '\t' <= c <= '\r'
  }

  predicate IsDigit(c: char) {
    '0' <= c <= '9'
  }

  /** Where `c` occurs first; the length if it does not. */
  function Find(s: string, c: char): (k: nat)
    ensures k <= |s| && (k < |s| ==> s[k] == c) && forall i :: 0 <= i < k ==> s[i] != c
  {
    if s == "" || s[0] == c then 0 else 1 + Find(s[1..], c)
  }

  lemma {:induction false} FindIs(s: string, c: char, k: nat)
    requires k <= |s| && (k < |s| ==> s[k] == c) && forall i :: 0 <= i < k ==> s[i] != c
    ensures Find(s, c) == k
  {
    if k > 0 {
      FindIs(s[1..], c, k - 1);
    }
  }

  /** strsep: the text up to the delimiter, and what follows it if it is there. */
  function StrSep(s: string, delim: char): (string, Option<string>) {
    var k := Find(s, delim);
    if k < |s| then (s[..k], Some(s[k + 1..])) else (s, None)
  }

  function SkipWhiteSpace(s: string): string {
    if s != "" && IsSpace(s[0]) then SkipWhiteSpace(s[1..]) else s
  }

  function DigitsLength(s: string): (n: nat)
    ensures n <= |s| && forall i :: 0 <= i < n ==> IsDigit(s[i])
    ensures n < |s| ==> !IsDigit(s[n])
  {
    if s != "" && IsDigit(s[0]) then 1 + DigitsLength(s[1..]) else 0
  }

  function Number(digits: string): (n: nat)
    requires forall i :: 0 <= i < |digits| ==> IsDigit(digits[i])
  {
    if digits == "" then 0
    else
      assert IsDigit(digits[|digits| - 1]);
      10 * Number(digits[..|digits| - 1]) + (digits[|digits| - 1] as int - '0' as int)
  }

  const LONG_MAX := 0x7fff_ffff_ffff_ffff
  const INT_MAX := 0x7fff_ffff

  function Saturate(n: int): int {
    if n > LONG_MAX then LONG_MAX else if n < -LONG_MAX - 1 then -LONG_MAX - 1 else n
  }

  /** The number a text starts with, if it starts with one. */
  function LeadingNumber(s: string): Option<nat> {
    var n := DigitsLength(s);
    if n == 0 then None else Some(Number(s[..n]))
  }

  /** strtol with base 10; nothing if there is no number. */
  function StrToL(s: string): Option<int> {
    var t := SkipWhiteSpace(s);
    if t == "" then None
    else
      var l := LeadingNumber(if t[0] == '-' || t[0] == '+' then t[1..] else t);
      if l.None? then None else Some(Saturate(if t[0] == '-' then -(l.value as int) else l.value))
  }

  /** (int) of a long */
  function ToInt(l: int): int {
    (l + INT_MAX + 1) % (2 * (INT_MAX + 1)) - (INT_MAX + 1)
  }

  /** atoi */
  function AToI(s: string): int {
    var l := StrToL(s);
    if l.Some? then ToInt(l.value) else 0
  }

  // ---------- at_tok.c ----------

  /** at_tok_start and at_tok_flag_start: what follows the first flag character. */
  function Start(s: string, flag: char): Option<string> {
    var k := Find(s, flag);
    if k < |s| then Some(s[k + 1..]) else None
  }

  function SkipNextComma(s: string): string {
    var k := Find(s, ',');
    if k < |s| then s[k + 1..] else ""
  }

  /** nextTok: the token and what is left; nothing is left once the text has run out. */
  function NextTok(s: string): (string, Option<string>) {
    var t := SkipWhiteSpace(s);
    if t != "" && t[0] == '"' then
      var (token, rest) := StrSep(t[1..], '"');
      (token, if rest.Some? then Some(SkipNextComma(rest.value)) else None)
    else StrSep(t, ',')
  }

  predicate HasMore(cur: Option<string>) {
    cur.Some? && cur.value != ""
  }

  // ---------- printing ----------

  function Digit(d: nat): char
    requires d < 10
  {
    ('0' as int + d) as char
  }

  function PrintNat(n: nat): (s: string)
    ensures s != "" && forall i :: 0 <= i < |s| ==> IsDigit(s[i])
  {
    if n < 10 then [Digit(n)] else PrintNat(n / 10) + [Digit(n % 10)]
  }

  /** %d */
  function Print(n: int): (s: string)
    ensures s != "" && forall i :: 0 <= i < |s| ==> IsDigit(s[i]) || (i == 0 && s[i] == '-')
  {
    if n < 0 then "-" + PrintNat(-n) else PrintNat(n)
  }

  lemma {:induction false} NumberOfPrintNat(n: nat)
    ensures Number(PrintNat(n)) == n
  {
    if n >= 10 {
      NumberOfPrintNat(n / 10);
      var s := PrintNat(n);
      assert s[..|s| - 1] == PrintNat(n / 10);
    } else {
      assert PrintNat(n)[..0] == "";
    }
  }

  lemma {:induction false} DigitsLengthIs(digits: string, rest: string)
    requires forall i :: 0 <= i < |digits| ==> IsDigit(digits[i])
    requires rest == "" || !IsDigit(rest[0])
    ensures DigitsLength(digits + rest) == |digits|
  {
    if digits != "" {
      assert (digits + rest)[1..] == digits[1..] + rest;
      DigitsLengthIs(digits[1..], rest);
    } else {
      assert digits + rest == rest;
    }
  }

  lemma ToIntKeeps(n: int)
    requires -INT_MAX - 1 <= n <= INT_MAX
    ensures ToInt(n) == n
  {
  }

  lemma LeadingNumberOf(digits: string, rest: string)
    requires digits != "" && forall i :: 0 <= i < |digits| ==> IsDigit(digits[i])
    requires rest == "" || !IsDigit(rest[0])
    ensures LeadingNumber(digits + rest) == Some(Number(digits))
  {
    DigitsLengthIs(digits, rest);
    assert (digits + rest)[..|digits|] == digits;
  }

  lemma StrToLOfSigned(s: string, negative: bool, m: nat)
    requires s != "" && if negative then s[0] == '-' && LeadingNumber(s[1..]) == Some(m)
                        else IsDigit(s[0]) && LeadingNumber(s) == Some(m)
    ensures StrToL(s) == Some(Saturate(if negative then -(m as int) else m))
  {
    assert SkipWhiteSpace(s) == s;
  }

  /** strtol reads what %d prints, whatever non-digit follows. */
  lemma StrToLOfPrint(n: int, rest: string)
    requires -INT_MAX - 1 <= n <= INT_MAX && (rest == "" || !IsDigit(rest[0]))
    ensures StrToL(Print(n) + rest) == Some(n)
  {
    var m := if n < 0 then -n else n;
    DigitsAreRead(m, rest);
    SignThenDigits(n, m, rest);
    StrToLOfSigned(Print(n) + rest, n < 0, m);
  }

  lemma DigitsAreRead(m: nat, rest: string)
    requires m <= INT_MAX + 1 && (rest == "" || !IsDigit(rest[0]))
    ensures LeadingNumber(PrintNat(m) + rest) == Some(m)
  {
    NumberOfPrintNat(m);
    LeadingNumberOf(PrintNat(m), rest);
  }

  lemma SignThenDigits(n: int, m: nat, rest: string)
    requires m == if n < 0 then -n else n
    ensures Print(n) + rest == if n < 0 then "-" + (PrintNat(m) + rest) else PrintNat(m) + rest
    ensures n < 0 ==> (Print(n) + rest)[1..] == PrintNat(m) + rest
  {
    assert Print(n) == if n < 0 then "-" + PrintNat(m) else PrintNat(m);
  }

  lemma AToIOfPrint(n: int, rest: string)
    requires -INT_MAX - 1 <= n <= INT_MAX && (rest == "" || !IsDigit(rest[0]))
    ensures AToI(Print(n) + rest) == n
  {
    StrToLOfPrint(n, rest);
    ToIntKeeps(n);
  }

  // ---------- printed fields ----------

  datatype Field = Int(n: int) | Plain(s: string) | Quoted(s: string)

  /** What a field may hold to be told apart from the punctuation. */
  predicate Printable(f: Field) {
    match f
    case Int(n) => -INT_MAX - 1 <= n <= INT_MAX
    case Plain(s) => ',' !in s && (s == "" || (!IsSpace(s[0]) && s[0] != '"'))
    case Quoted(s) => '"' !in s
  }

  function PrintField(f: Field): string {
    match f
    case Int(n) => Print(n)
    case Plain(s) => s
    case Quoted(s) => "\"" + s + "\""
  }

  function PrintFields(fs: seq<Field>): string {
    if fs == [] then ""
    else if |fs| == 1 then PrintField(fs[0])
    else PrintField(fs[0]) + "," + PrintFields(fs[1..])
  }

  lemma PrintFieldsCons(f: Field, fs: seq<Field>)
    requires fs != []
    ensures PrintFields([f] + fs) == PrintField(f) + "," + PrintFields(fs)
  {
    assert ([f] + fs)[1..] == fs;
  }

  function Content(f: Field): string {
    if f.Int? then Print(f.n) else f.s
  }

  lemma StrSepAt(a: string, c: char, b: string)
    requires c !in a
    ensures StrSep(a + [c] + b, c) == (a, Some(b)) && StrSep(a, c) == (a, None)
  {
    FindIs(a + [c] + b, c, |a|);
    FindIs(a, c, |a|);
    var t := a + [c] + b;
    assert t[..|a|] == a && t[|a| + 1..] == b;
  }

  lemma NextTokOfQuoted(f: Field, more: string)
    requires Printable(f) && f.Quoted?
    ensures NextTok(PrintField(f) + "," + more) == (f.s, Some(more)) && NextTok(PrintField(f)) == (f.s, Some(""))
  {
    var s := PrintField(f);
    StrSepAt(f.s, '"', "," + more);
    StrSepAt(f.s, '"', "");
    assert (s + "," + more)[1..] == f.s + ['"'] + ("," + more);
    assert s[1..] == f.s + ['"'] + "";
    FindIs("," + more, ',', 0);
    assert ("," + more)[1..] == more;
  }

  lemma NextTokOfPlain(s: string, more: string)
    requires ',' !in s && (s != "" ==> !IsSpace(s[0]) && s[0] != '"')
    ensures NextTok(s + "," + more) == (s, Some(more)) && NextTok(s) == (s, None)
  {
    StrSepAt(s, ',', more);
    assert SkipWhiteSpace(s) == s;
    var t := s + "," + more;
    assert SkipWhiteSpace(t) == t by {
      assert !IsSpace(t[0]);
    }
  }

  /** nextTok undoes the printing of one field, and leaves exactly the rest. */
  lemma NextTokOfField(f: Field, more: string)
    requires Printable(f)
    ensures NextTok(PrintField(f) + "," + more) == (Content(f), Some(more))
    ensures NextTok(PrintField(f)) == (Content(f), if f.Quoted? then Some("") else None)
  {
    if f.Quoted? {
      NextTokOfQuoted(f, more);
    } else {
      NextTokOfPlain(PrintField(f), more);
    }
  }

  /** One at_tok_nextint or at_tok_nextstr per field; Nothing once one of them fails. */
  function Read(kinds: seq<Field>, cur: Option<string>): Option<(seq<Field>, Option<string>)> {
    if kinds == [] then Some(([], cur))
    else if cur.None? then None
    else
      var (token, rest) := NextTok(cur.value);
      var value := match kinds[0]
        case Int(_) => (var l := StrToL(token); if l.None? then None else Some(Int(ToInt(l.value))))
        case Plain(_) => Some(Plain(token))
        case Quoted(_) => Some(Quoted(token));
      var others := Read(kinds[1..], rest);
      if value.None? || others.None? then None
      else Some(([value.value] + others.value.0, others.value.1))
  }

  /** Whatever list of fields is printed, as many calls as there are fields return them unchanged,
      and then nothing is left. (Only the kinds of the first argument of Read matter.) */
  lemma {:induction false} ReadUndoesPrint(fs: seq<Field>)
    requires fs != [] && forall i :: 0 <= i < |fs| ==> Printable(fs[i])
    ensures Read(fs, Some(PrintFields(fs))).Some?
    ensures Read(fs, Some(PrintFields(fs))).value.0 == fs
    ensures !HasMore(Read(fs, Some(PrintFields(fs))).value.1)
  {
    var f := fs[0];
    NextTokOfField(f, PrintFields(fs[1..]));
    if f.Int? {
      StrToLOfPrint(f.n, "");
      ToIntKeeps(f.n);
      assert Print(f.n) + "" == Print(f.n);
    }
    if |fs| > 1 {
      ReadUndoesPrint(fs[1..]);
      assert fs == [f] + fs[1..];
    } else {
      assert fs == [f];
      assert Read(fs[1..], NextTok(PrintField(f)).1).value.0 == [];
    }
  }

  /** Before a field is read, at_tok_hasmore tells that there is one, except that an empty last field
      looks like the end of the text. */
  lemma HasMoreIff(fs: seq<Field>)
    requires fs != []
    ensures HasMore(Some(PrintFields(fs))) <==> fs != [Plain("")]
  {
    assert |fs| == 1 ==> fs == [fs[0]];
  }

  /** at_tok_start finds the fields behind any prefix without a colon. */
  lemma StartSkipsPrefix(prefix: string, flag: char, s: string)
    requires flag !in prefix
    ensures Start(prefix + [flag] + s, flag) == Some(s)
  {
    FindIs(prefix + [flag] + s, flag, |prefix|);
    assert (prefix + [flag] + s)[|prefix| + 1..] == s;
  }
}
