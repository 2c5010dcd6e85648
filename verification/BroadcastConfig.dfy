/** The AT+CSCB command that sets the cell-broadcast configuration and the reading of its report
    (sprd-ril/ril_sms.c; section 3.3.4 of 3GPP TS 27.005). */
module BroadcastConfig {
  import opened AtTok
  import opened Options

  datatype Config = Config(fromId: int, toId: int, fromScheme: int, toScheme: int, selected: bool)

  const MAX_VALUE := 0xffff

  predicate InRange(v: int) {
    0 <= v <= MAX_VALUE
  }

  predicate Valid(c: Config) {
    InRange(c.fromId) && InRange(c.toId) && InRange(c.fromScheme) && InRange(c.toScheme)
  }

  // ---------- the setter ----------

  /** setSmsBroadcastConfigData: a value with the character in front of it, nothing if it is out of
      range. */
  function Piece(value: int, index: nat, isFirst: int): string {
    if !InRange(value) then ""
    else (if index == 0 && isFirst == 1 then "\"" else if isFirst == 2 then "-" else ",") + Print(value)
  }

  function IdPieces(c: Config, index: nat): string {
    Piece(c.fromId, index, 1) + if c.fromId != c.toId then Piece(c.toId, index, 2) else ""
  }

  function SchemePieces(c: Config, index: nat): string {
    Piece(c.fromScheme, index, 1) + Piece(c.toScheme, index, 2)
  }

  function Channel(cs: seq<Config>): string {
    if cs == [] then "" else Channel(cs[..|cs| - 1]) + IdPieces(cs[|cs| - 1], |cs| - 1)
  }

  function Lang(cs: seq<Config>): string {
    if cs == [] then "" else Lang(cs[..|cs| - 1]) + SchemePieces(cs[|cs| - 1], |cs| - 1)
  }

  function OrQuote(s: string): string {
    if s == "" then "\"" else s
  }

  /** `enable` is the negation of the first `selected`. */
  function Enable(cs: seq<Config>): int {
    if cs == [] || cs[0].selected then 0 else 1
  }

  /** What follows AT+CSCB= */
  function Arguments(cs: seq<Config>): string {
    Print(Enable(cs)) + "," + ((OrQuote(Channel(cs)) + "\"") + "," + (OrQuote(Lang(cs)) + "\""))
  }

  /** A piece is never a single character, so the case channelLen == 1 of the setter is empty. */
  lemma {:induction false} ChannelIsNotOneLong(cs: seq<Config>)
    ensures |Channel(cs)| != 1
  {
    if cs != [] {
      ChannelIsNotOneLong(cs[..|cs| - 1]);
      var c, i := cs[|cs| - 1], |cs| - 1;
      assert |Piece(c.fromId, i, 1)| != 1 && |Piece(c.toId, i, 2)| != 1;
    }
  }

  /** The loop of the setter. */
  method BuildLists(cs: seq<Config>) returns (enable: int, channel: string, lang: string)
    ensures enable == (if cs == [] then 0 else Enable(cs)) && channel == Channel(cs) && lang == Lang(cs)
  {
    enable, channel, lang := 0, "", "";
    for i := 0 to |cs|
      invariant enable == if i == 0 then 0 else Enable(cs)
      invariant channel == Channel(cs[..i]) && lang == Lang(cs[..i])
    {
      assert cs[..i + 1][..i] == cs[..i];
      if i == 0 {
        enable := if cs[i].selected then 0 else 1;
      }
      channel := channel + IdPieces(cs[i], i);
      lang := lang + SchemePieces(cs[i], i);
    }
    assert cs[..|cs|] == cs;
  }

  method SetSmsBroadcastConfig(cs: seq<Config>) returns (cmd: string)
    ensures cmd == "AT+CSCB=" + Arguments(cs)
  {
    var enable, channel, lang := BuildLists(cs);
    ChannelIsNotOneLong(cs);
    if |lang| == 0 {
      lang := "\"";
    }
    if |channel| == 1 {
      channel := channel + "\"";
    }
    if |channel| == 0 {
      channel := "\"";
    }
    cmd := "AT+CSCB=" + (Print(enable) + "," + ((channel + "\"") + "," + (lang + "\"")));
  }

  // ---------- the getter ----------

  /** The two ends of a range: strsep at the dash, atoi on both halves. The leftover is what the
      variable holds afterwards. */
  function Range(entry: Option<string>): (int, int, Option<string>) {
    if entry.None? then (0, 0, None)
    else
      var (from, to) := StrSep(entry.value, '-');
      (AToI(from), if to.Some? then AToI(to.value) else AToI(from), to)
  }

  /** at_tok_nextstr into a variable that keeps its value when there is nothing left. */
  function NextEntry(list: Option<string>, kept: Option<string>): (Option<string>, Option<string>) {
    if list.None? then (kept, None)
    else var (token, rest) := NextTok(list.value); (Some(token), rest)
  }

  datatype Lists = Lists(ids: Option<string>, id: Option<string>, schemes: Option<string>, scheme: Option<string>)

  function Entry(l: Lists, mode: int): (Config, Lists) {
    var (id, ids) := NextEntry(l.ids, l.id);
    var (fromId, toId, restId) := Range(id);
    var (scheme, schemes) := NextEntry(l.schemes, l.scheme);
    var (fromScheme, toScheme, restScheme) := Range(scheme);
    (Config(fromId, toId, fromScheme, toScheme, mode != 0), Lists(ids, restId, schemes, restScheme))
  }

  function Entries(n: nat, l: Lists, mode: int): seq<Config> {
    if n == 0 then [] else var (c, rest) := Entry(l, mode); [c] + Entries(n - 1, rest, mode)
  }

  function Commas(s: string): nat {
    if s == "" then 0 else (if s[0] == ',' then 1 else 0) + Commas(s[1..])
  }

  /** The two lists behind the mode. */
  function ReadLists(mode: int, cur: Option<string>): Option<seq<Config>> {
    if cur.None? then None
    else
      var (ids, rest) := NextTok(cur.value);
      if rest.None? then None
      else
        var schemes := NextTok(rest.value).0;
        Some(Entries(Commas(ids) + 1, Lists(Some(ids), None, Some(schemes), None), mode))
  }

  /** The configurations in a +CSCB report; nothing for a malformed one. */
  function Parse(line: string): Option<seq<Config>> {
    var args := Start(line, ':');
    if args.None? then None
    else
      var (token, rest) := NextTok(args.value);
      var mode := StrToL(token);
      if mode.None? then None else ReadLists(ToInt(mode.value), rest)
  }

  method CountCommas(s: string) returns (commas: nat)
    ensures commas == Commas(s)
  {
    commas := 0;
    for i := 0 to |s|
      invariant commas + Commas(s[i..]) == Commas(s)
    {
      if s[i] == ',' {
        commas := commas + 1;
      }
      assert s[i..][1..] == s[i + 1..];
    }
  }

  lemma AppendOne<T>(a: seq<T>, x: T, b: seq<T>)
    ensures a + ([x] + b) == a + [x] + b
  {
  }

  /** The loop of the getter. */
  method ReadEntries(n: nat, ids: string, schemes: string, mode: int) returns (r: seq<Config>)
    ensures r == Entries(n, Lists(Some(ids), None, Some(schemes), None), mode)
  {
    var l := Lists(Some(ids), None, Some(schemes), None);
    ghost var all := Entries(n, l, mode);
    r := [];
    for i := 0 to n
      invariant r + Entries(n - i, l, mode) == all
    {
      EntriesStep(r, n - i, l, mode);
      var (c, rest) := Entry(l, mode);
      r, l := r + [c], rest;
    }
  }

  lemma EntriesStep(r: seq<Config>, n: nat, l: Lists, mode: int)
    requires n > 0
    ensures r + Entries(n, l, mode) == r + [Entry(l, mode).0] + Entries(n - 1, Entry(l, mode).1, mode)
  {
    AppendOne(r, Entry(l, mode).0, Entries(n - 1, Entry(l, mode).1, mode));
  }

  method GetSmsBroadcastConfig(line: string) returns (r: Option<seq<Config>>)
    ensures r == Parse(line)
  {
    var args := Start(line, ':');
    if args.None? {
      return None;
    }
    var (token, rest) := NextTok(args.value);
    var mode := StrToL(token);
    if mode.None? || rest.None? {
      return None;
    }
    var (ids, rest2) := NextTok(rest.value);
    if rest2.None? {
      return None;
    }
    var (schemes, _) := NextTok(rest2.value);
    var commas := CountCommas(ids);
    var entries := ReadEntries(commas + 1, ids, schemes, ToInt(mode.value));
    r := Some(entries);
  }

  // ---------- the getter undoes the setter ----------

  function IdText(c: Config): string {
    Print(c.fromId) + if c.fromId != c.toId then "-" + Print(c.toId) else ""
  }

  function SchemeText(c: Config): string {
    Print(c.fromScheme) + "-" + Print(c.toScheme)
  }

  function IdFields(cs: seq<Config>): (fs: seq<Field>)
    ensures |fs| == |cs| && forall i :: 0 <= i < |cs| ==> fs[i] == Plain(IdText(cs[i]))
  {
    seq(|cs|, i requires 0 <= i < |cs| => Plain(IdText(cs[i])))
  }

  function SchemeFields(cs: seq<Config>): (fs: seq<Field>)
    ensures |fs| == |cs| && forall i :: 0 <= i < |cs| ==> fs[i] == Plain(SchemeText(cs[i]))
  {
    seq(|cs|, i requires 0 <= i < |cs| => Plain(SchemeText(cs[i])))
  }

  predicate AllValid(cs: seq<Config>) {
    forall i :: 0 <= i < |cs| ==> Valid(cs[i])
  }

  /** The field for a value or a range starts with a digit and has neither comma nor quote. */
  predicate Clean(s: string) {
    s != "" && IsDigit(s[0]) && ',' !in s && '"' !in s
  }

  lemma PrintedRangeIsClean(from: int, to: int)
    requires InRange(from) && InRange(to)
    ensures Clean(Print(from)) && Clean(Print(from) + "-" + Print(to)) && '-' !in Print(from)
  {
  }

  lemma {:induction false} PrintFieldsSnoc(fs: seq<Field>, f: Field)
    ensures PrintFields(fs + [f]) == (if fs == [] then "" else PrintFields(fs) + ",") + PrintField(f)
  {
    if fs == [] {
      assert fs + [f] == [f];
    } else {
      assert (fs + [f])[1..] == fs[1..] + [f];
      PrintFieldsSnoc(fs[1..], f);
    }
  }

  lemma PiecesAreTexts(c: Config, i: nat)
    requires Valid(c)
    ensures IdPieces(c, i) == (if i == 0 then "\"" else ",") + IdText(c)
    ensures SchemePieces(c, i) == (if i == 0 then "\"" else ",") + SchemeText(c)
  {
  }

  /** One more piece behind a list that is printed so far. */
  lemma ListStep(list: string, fs: seq<Field>, text: string, piece: string)
    requires list == if fs == [] then "" else "\"" + PrintFields(fs)
    requires piece == (if fs == [] then "\"" else ",") + text
    ensures list + piece == "\"" + PrintFields(fs + [Plain(text)])
  {
    PrintFieldsSnoc(fs, Plain(text));
  }

  lemma IdFieldsSnoc(front: seq<Config>, c: Config)
    ensures IdFields(front + [c]) == IdFields(front) + [Plain(IdText(c))]
  {
  }

  lemma SchemeFieldsSnoc(front: seq<Config>, c: Config)
    ensures SchemeFields(front + [c]) == SchemeFields(front) + [Plain(SchemeText(c))]
  {
  }

  lemma ChannelSnoc(front: seq<Config>, c: Config)
    requires Valid(c)
    requires Channel(front) == if front == [] then "" else "\"" + PrintFields(IdFields(front))
    ensures Channel(front + [c]) == "\"" + PrintFields(IdFields(front + [c]))
  {
    IdFieldsSnoc(front, c);
    PiecesAreTexts(c, |front|);
    assert (front + [c])[..|front|] == front;
    ListStep(Channel(front), IdFields(front), IdText(c), IdPieces(c, |front|));
  }

  lemma LangSnoc(front: seq<Config>, c: Config)
    requires Valid(c)
    requires Lang(front) == if front == [] then "" else "\"" + PrintFields(SchemeFields(front))
    ensures Lang(front + [c]) == "\"" + PrintFields(SchemeFields(front + [c]))
  {
    SchemeFieldsSnoc(front, c);
    PiecesAreTexts(c, |front|);
    assert (front + [c])[..|front|] == front;
    ListStep(Lang(front), SchemeFields(front), SchemeText(c), SchemePieces(c, |front|));
  }

  /** The setter's lists are the fields, separated by commas, behind one quote. */
  lemma {:induction false} ChannelIsPrinted(cs: seq<Config>)
    requires AllValid(cs)
    ensures Channel(cs) == if cs == [] then "" else "\"" + PrintFields(IdFields(cs))
  {
    if cs != [] {
      var front, c := cs[..|cs| - 1], cs[|cs| - 1];
      assert cs == front + [c];
      ChannelIsPrinted(front);
      ChannelSnoc(front, c);
    }
  }

  lemma {:induction false} LangIsPrinted(cs: seq<Config>)
    requires AllValid(cs)
    ensures Lang(cs) == if cs == [] then "" else "\"" + PrintFields(SchemeFields(cs))
  {
    if cs != [] {
      var front, c := cs[..|cs| - 1], cs[|cs| - 1];
      assert cs == front + [c];
      LangIsPrinted(front);
      LangSnoc(front, c);
    }
  }

  lemma RangeOfPrint(from: int, to: int)
    requires InRange(from) && InRange(to)
    ensures var (f, t, _) := Range(Some(Print(from))); f == from && t == from
    ensures var (f, t, _) := Range(Some(Print(from) + "-" + Print(to))); f == from && t == to
  {
    PrintedRangeIsClean(from, to);
    StrSepAt(Print(from), '-', Print(to));
    AToIOfPrint(from, "");
    AToIOfPrint(to, "");
    assert Print(from) + "" == Print(from) && Print(to) + "" == Print(to);
  }

  lemma {:induction false} CommasOf(s: string, t: string)
    ensures Commas(s + t) == Commas(s) + Commas(t)
    ensures ',' !in s ==> Commas(s) == 0
  {
    if s == "" {
      assert s + t == t;
    } else {
      assert (s + t)[1..] == s[1..] + t;
      CommasOf(s[1..], t);
    }
  }

  lemma {:induction false} CommasOfFields(fs: seq<Field>)
    requires fs != [] && forall i :: 0 <= i < |fs| ==> fs[i].Plain? && Clean(fs[i].s)
    ensures Commas(PrintFields(fs)) == |fs| - 1 && '"' !in PrintFields(fs)
  {
    CommasOf(fs[0].s, "");
    if |fs| > 1 {
      CommasOfFields(fs[1..]);
      CommasOf(fs[0].s + ",", PrintFields(fs[1..]));
      CommasOf(fs[0].s, ",");
      assert Commas(",") == 1;
    }
  }

  function WithSelected(cs: seq<Config>, selected: bool): (r: seq<Config>)
    ensures |r| == |cs| && forall i :: 0 <= i < |cs| ==> r[i] == cs[i].(selected := selected)
  {
    seq(|cs|, i requires 0 <= i < |cs| => cs[i].(selected := selected))
  }

  /** The next token of a printed list is its first text, whatever the variable held before. */
  lemma NextOfFields(fs: seq<Field>, kept: Option<string>)
    requires fs != [] && fs[0].Plain? && Clean(fs[0].s)
    ensures var (entry, rest) := NextEntry(Some(PrintFields(fs)), kept);
      entry == Some(fs[0].s) && (|fs| > 1 ==> rest == Some(PrintFields(fs[1..])))
  {
    assert !IsSpace(fs[0].s[0]) && fs[0].s[0] != '"';
    NextTokOfField(fs[0], PrintFields(fs[1..]));
  }

  lemma IdIsClean(c: Config)
    requires Valid(c)
    ensures Clean(IdText(c)) && Range(Some(IdText(c))).0 == c.fromId && Range(Some(IdText(c))).1 == c.toId
  {
    var text := IdText(c);
    assert text == if c.fromId == c.toId then Print(c.fromId) else Print(c.fromId) + "-" + Print(c.toId);
    PrintedRangeIsClean(c.fromId, c.toId);
    RangeOfPrint(c.fromId, c.toId);
  }

  lemma SchemeIsClean(c: Config)
    requires Valid(c)
    ensures Clean(SchemeText(c))
    ensures Range(Some(SchemeText(c))).0 == c.fromScheme && Range(Some(SchemeText(c))).1 == c.toScheme
  {
    PrintedRangeIsClean(c.fromScheme, c.toScheme);
    RangeOfPrint(c.fromScheme, c.toScheme);
  }

  lemma FirstEntry(cs: seq<Config>, l: Lists, mode: int)
    requires cs != [] && AllValid(cs)
    requires l.ids == Some(PrintFields(IdFields(cs))) && l.schemes == Some(PrintFields(SchemeFields(cs)))
    ensures var (c, rest) := Entry(l, mode);
      && c == cs[0].(selected := mode != 0)
      && (|cs| > 1 ==> rest.ids == Some(PrintFields(IdFields(cs)[1..]))
                       && rest.schemes == Some(PrintFields(SchemeFields(cs)[1..])))
  {
    IdIsClean(cs[0]);
    SchemeIsClean(cs[0]);
    NextOfFields(IdFields(cs), l.id);
    NextOfFields(SchemeFields(cs), l.scheme);
  }

  lemma SelectedOfFirst(cs: seq<Config>, selected: bool)
    requires cs != []
    ensures WithSelected(cs, selected) == [cs[0].(selected := selected)] + WithSelected(cs[1..], selected)
  {
  }

  lemma FieldsOfRest(cs: seq<Config>)
    requires cs != []
    ensures IdFields(cs[1..]) == IdFields(cs)[1..] && SchemeFields(cs[1..]) == SchemeFields(cs)[1..]
  {
  }

  lemma OneMoreEntry(n: nat, l: Lists, mode: int, c: Config, rest: Lists)
    requires n > 0 && Entry(l, mode) == (c, rest)
    ensures Entries(n, l, mode) == [c] + Entries(n - 1, rest, mode)
  {
  }

  lemma {:induction false} EntriesOfFields(cs: seq<Config>, l: Lists, mode: int)
    requires cs != [] && AllValid(cs)
    requires l.ids == Some(PrintFields(IdFields(cs))) && l.schemes == Some(PrintFields(SchemeFields(cs)))
    ensures Entries(|cs|, l, mode) == WithSelected(cs, mode != 0)
  {
    var rest := Entry(l, mode).1;
    FirstEntry(cs, l, mode);
    OneMoreEntry(|cs|, l, mode, cs[0].(selected := mode != 0), rest);
    SelectedOfFirst(cs, mode != 0);
    if |cs| > 1 {
      FieldsOfRest(cs);
      EntriesOfFields(cs[1..], rest, mode);
    }
  }

  lemma ArgumentsArePrinted(cs: seq<Config>)
    requires cs != [] && AllValid(cs)
    ensures Arguments(cs) == PrintFields([Int(Enable(cs)), Quoted(PrintFields(IdFields(cs))),
                                          Quoted(PrintFields(SchemeFields(cs)))])
  {
    ChannelIsPrinted(cs);
    LangIsPrinted(cs);
    PrintThree(Enable(cs), PrintFields(IdFields(cs)), PrintFields(SchemeFields(cs)));
  }

  lemma PrintThree(n: int, a: string, b: string)
    ensures PrintFields([Int(n), Quoted(a), Quoted(b)]) ==
      Print(n) + "," + ((("\"" + a) + "\"") + "," + (("\"" + b) + "\""))
  {
    PrintFieldsCons(Quoted(a), [Quoted(b)]);
    PrintFieldsCons(Int(n), [Quoted(a), Quoted(b)]);
    assert [Quoted(a)] + [Quoted(b)] == [Quoted(a), Quoted(b)];
    assert [Int(n)] + [Quoted(a), Quoted(b)] == [Int(n), Quoted(a), Quoted(b)];
  }

  function ListsOf(cs: seq<Config>): Lists {
    Lists(Some(PrintFields(IdFields(cs))), None, Some(PrintFields(SchemeFields(cs))), None)
  }

  lemma ReportOfSetter(cs: seq<Config>)
    requires cs != [] && AllValid(cs)
    ensures Parse("+CSCB: " + Arguments(cs)) == Some(Entries(|cs|, ListsOf(cs), Enable(cs)))
  {
    ListsAreClean(cs);
    ArgumentsArePrinted(cs);
    ReportIsRead(Enable(cs), PrintFields(IdFields(cs)), PrintFields(SchemeFields(cs)), Arguments(cs));
  }

  /** For every list of configurations with values from 0 to 0xffff, a report with the arguments of
      the setter's command is read as the same ranges. The selected flags are not: all of them
      come back as the negation of the first. */
  lemma GetterUndoesSetter(cs: seq<Config>)
    requires cs != [] && AllValid(cs)
    ensures Parse("+CSCB: " + Arguments(cs)) == Some(WithSelected(cs, !cs[0].selected))
  {
    ReportOfSetter(cs);
    EntriesOfFields(cs, ListsOf(cs), Enable(cs));
  }

  lemma ListsAreClean(cs: seq<Config>)
    requires cs != [] && AllValid(cs)
    ensures Commas(PrintFields(IdFields(cs))) == |cs| - 1
    ensures '"' !in PrintFields(IdFields(cs)) && '"' !in PrintFields(SchemeFields(cs))
  {
    forall i | 0 <= i < |cs| ensures Clean(IdText(cs[i])) && Clean(SchemeText(cs[i])) {
      IdIsClean(cs[i]);
      SchemeIsClean(cs[i]);
    }
    CommasOfFields(IdFields(cs));
    CommasOfFields(SchemeFields(cs));
  }

  lemma ReportIsRead(mode: int, ids: string, schemes: string, args: string)
    requires args == PrintFields([Int(mode), Quoted(ids), Quoted(schemes)])
    requires 0 <= mode <= 1 && '"' !in ids && '"' !in schemes
    ensures Parse("+CSCB: " + args) ==
      Some(Entries(Commas(ids) + 1, Lists(Some(ids), None, Some(schemes), None), mode))
  {
    var rest := PrintFields([Quoted(ids), Quoted(schemes)]);
    assert StrToL(Print(mode)) == Some(mode) by {
      StrToLOfPrint(mode, "");
      assert Print(mode) + "" == Print(mode);
    }
    assert Start("+CSCB: " + args, ':') == Some(" " + args) by {
      StartOfReport(args);
    }
    OneSpaceIsSkipped(args);
    TokensOfReport(mode, ids, schemes);
    ToIntKeeps(mode);
    assert Parse("+CSCB: " + args) == ReadLists(mode, Some(rest));
    ReadListsIs(mode, rest, ids, PrintField(Quoted(schemes)), schemes);
  }

  lemma ReadListsIs(mode: int, rest: string, ids: string, rest2: string, schemes: string)
    requires NextTok(rest) == (ids, Some(rest2)) && NextTok(rest2).0 == schemes
    ensures ReadLists(mode, Some(rest)) ==
      Some(Entries(Commas(ids) + 1, Lists(Some(ids), None, Some(schemes), None), mode))
  {
  }

  lemma OneSpaceIsSkipped(s: string)
    ensures NextTok(" " + s) == NextTok(s)
  {
    assert (" " + s)[1..] == s;
    assert SkipWhiteSpace(" " + s) == SkipWhiteSpace(s);
  }

  lemma TokensOfReport(mode: int, ids: string, schemes: string)
    requires 0 <= mode <= 1 && '"' !in ids && '"' !in schemes
    ensures var args := PrintFields([Int(mode), Quoted(ids), Quoted(schemes)]);
      var rest := PrintFields([Quoted(ids), Quoted(schemes)]);
      && NextTok(args) == (Print(mode), Some(rest))
      && NextTok(rest) == (ids, Some(PrintField(Quoted(schemes))))
      && NextTok(PrintField(Quoted(schemes))) == (schemes, Some(""))
  {
    var fs := [Int(mode), Quoted(ids), Quoted(schemes)];
    assert fs[1..] == [Quoted(ids), Quoted(schemes)] && fs[1..][1..] == [Quoted(schemes)];
    NextTokOfField(fs[0], PrintFields(fs[1..]));
    NextTokOfField(fs[1], PrintFields(fs[1..][1..]));
    NextTokOfField(fs[2], "");
  }

  lemma StartOfReport(args: string)
    ensures Start("+CSCB: " + args, ':') == Some(" " + args)
  {
    StartSkipsPrefix("+CSCB", ':', " " + args);
    assert "+CSCB: " + args == "+CSCB" + [':'] + (" " + args);
  }

  /** The selected flags survive for no list at all. */
  lemma SelectedIsNegated(cs: seq<Config>)
    requires cs != [] && AllValid(cs)
    ensures Parse("+CSCB: " + Arguments(cs)) != Some(cs)
  {
    GetterUndoesSetter(cs);
  }
}
