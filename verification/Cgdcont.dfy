/** The rewriting of AT+CGDCONT= commands (sprd-ril/ril_data.c, cgdcont_set_cmd_req): the command is
    taken apart by the tokenizer and printed again. */
module Cgdcont {
  import opened AtTok
  import opened AtTokBuffer
  import opened Options

  const IP_ADDR_MAX := 128
  const AT_COMMAND_LEN := 128

  /** snprintf into a buffer of `size` characters. */
  function Clip(s: string, size: nat): string
    requires size > 0
  {
    if |s| < size then s else s[..size - 1]
  }

  /** The copy made of the next string field; it stays empty if there is none. */
  function Copy(cur: Option<string>): string {
    if cur.None? then "" else Clip(NextTok(cur.value).0, IP_ADDR_MAX)
  }

  function Rest(cur: Option<string>): Option<string> {
    if cur.None? then None else NextTok(cur.value).1
  }

  /** The command that is printed from the fields that are left. */
  function Reprint(cid: int, ip: Option<string>): string {
    var net := Rest(ip);
    var addr := Rest(net);
    var dcomp := Rest(addr);
    var hcomp := Rest(dcomp);
    Clip(Printed(cid, Copy(ip), Copy(net), Copy(addr), Copy(dcomp), Copy(hcomp)) + "\r", AT_COMMAND_LEN)
  }

  /** The new command, or nothing for AT_RESULT_NG. */
  function Rewrite(cmd: string): Option<string> {
    var args := Start(cmd, '=');
    if args.None? then None
    else
      var (token, rest) := NextTok(args.value);
      var cid := StrToL(token);
      if cid.None? then None else Some(Reprint(ToInt(cid.value), rest))
  }

  const COMMAND := "AT+CGDCONT="

  function Quote(s: string): string {
    "\"" + s + "\""
  }

  /** The format AT+CGDCONT=%d,"%s","%s","%s",%s,%s of the final snprintf. */
  function Printed(cid: int, ip: string, net: string, addr: string, dcomp: string, hcomp: string): string {
    COMMAND + (Print(cid) + "," + (Quote(ip) + "," + (Quote(net) + "," + (Quote(addr) + ","
      + (dcomp + "," + hcomp)))))
  }

  function StringFields(ip: string, net: string, addr: string, dcomp: string, hcomp: string): seq<Field> {
    [Quoted(ip)] + ([Quoted(net)] + ([Quoted(addr)] + ([Plain(dcomp)] + [Plain(hcomp)])))
  }

  function Fields(cid: int, ip: string, net: string, addr: string, dcomp: string, hcomp: string): seq<Field> {
    [Int(cid)] + StringFields(ip, net, addr, dcomp, hcomp)
  }

  lemma PrintedFields(cid: int, ip: string, net: string, addr: string, dcomp: string, hcomp: string)
    ensures Printed(cid, ip, net, addr, dcomp, hcomp) ==
      COMMAND + PrintFields(Fields(cid, ip, net, addr, dcomp, hcomp))
  {
    var f := [Plain(dcomp)] + [Plain(hcomp)];
    PrintFieldsCons(Plain(dcomp), [Plain(hcomp)]);
    PrintFieldsCons(Quoted(addr), f);
    PrintFieldsCons(Quoted(net), [Quoted(addr)] + f);
    PrintFieldsCons(Quoted(ip), [Quoted(net)] + ([Quoted(addr)] + f));
    PrintFieldsCons(Int(cid), [Quoted(ip)] + ([Quoted(net)] + ([Quoted(addr)] + f)));
  }

  /** Copy and Rest undo the printing of a string field that is not too long. */
  lemma CopyOfFields(fs: seq<Field>)
    requires fs != [] && !fs[0].Int? && Printable(fs[0]) && |fs[0].s| < IP_ADDR_MAX
    ensures Copy(Some(PrintFields(fs))) == fs[0].s
    ensures |fs| > 1 ==> Rest(Some(PrintFields(fs))) == Some(PrintFields(fs[1..]))
  {
    NextTokOfField(fs[0], PrintFields(fs[1..]));
  }

  lemma ReprintOfFields(cid: int, fs: seq<Field>)
    requires |fs| == 5
    requires forall i :: 0 <= i < 5 ==> !fs[i].Int? && Printable(fs[i]) && |fs[i].s| < IP_ADDR_MAX
    ensures Reprint(cid, Some(PrintFields(fs))) ==
      Clip(Printed(cid, fs[0].s, fs[1].s, fs[2].s, fs[3].s, fs[4].s) + "\r", AT_COMMAND_LEN)
  {
    CopyOfFields(fs);
    CopyOfFields(fs[1..]);
    assert fs[1..][1..] == fs[2..] && fs[2..][1..] == fs[3..] && fs[3..][1..] == fs[4..];
    CopyOfFields(fs[2..]);
    CopyOfFields(fs[3..]);
    CopyOfFields(fs[4..]);
  }

  /** What the tokenizer gets out of a printed command whose string fields are not too long. */
  lemma RewriteOfFields(cid: int, fs: seq<Field>)
    requires Printable(Int(cid)) && fs != []
    ensures Rewrite(COMMAND + PrintFields([Int(cid)] + fs)) == Some(Reprint(cid, Some(PrintFields(fs))))
  {
    var args := PrintFields([Int(cid)] + fs);
    StartOfCommand(args);
    PrintFieldsCons(Int(cid), fs);
    NextTokOfField(Int(cid), PrintFields(fs));
    StrToLOfPrint(cid, "");
    assert Print(cid) + "" == Print(cid);
    ToIntKeeps(cid);
  }

  lemma StartOfCommand(args: string)
    ensures Start(COMMAND + args, '=') == Some(args)
  {
    assert COMMAND == "AT+CGDCONT" + ['='];
    StartSkipsPrefix("AT+CGDCONT", '=', args);
  }

  lemma FieldsFit(fs: seq<Field>)
    requires forall f :: f in fs ==> !f.Int?
    ensures forall f :: f in fs ==> |f.s| <= |PrintFields(fs)|
  {
    if |fs| > 1 {
      FieldsFit(fs[1..]);
    }
  }

  lemma RewriteIsShort(cmd: string)
    ensures Rewrite(cmd).Some? ==> |Rewrite(cmd).value| < AT_COMMAND_LEN
  {
  }

  lemma StringFieldsAre(ip: string, net: string, addr: string, dcomp: string, hcomp: string)
    ensures var fs := StringFields(ip, net, addr, dcomp, hcomp);
      && |fs| == 5 && (forall f :: f in fs ==> !f.Int?)
      && fs[0].s == ip && fs[1].s == net && fs[2].s == addr && fs[3].s == dcomp && fs[4].s == hcomp
  {
  }

  lemma RewriteKeepsShort(cid: int, fs: seq<Field>)
    requires Printable(Int(cid)) && fs != [] && forall f :: f in fs ==> !f.Int? && Printable(f)
    requires |COMMAND + PrintFields([Int(cid)] + fs)| <= AT_COMMAND_LEN - 2
    requires |fs| == 5
    ensures Rewrite(COMMAND + PrintFields([Int(cid)] + fs)) ==
      Some(Clip(Printed(cid, fs[0].s, fs[1].s, fs[2].s, fs[3].s, fs[4].s) + "\r", AT_COMMAND_LEN))
  {
    PrintFieldsCons(Int(cid), fs);
    FieldsFit(fs);
    RewriteOfFields(cid, fs);
    assert forall i :: 0 <= i < 5 ==> fs[i] in fs;
    ReprintOfFields(cid, fs);
  }

  /** A six-field command comes out as it went in, with a carriage return, iff it has at most 126
      characters; a longer one is cut off. */
  lemma RewriteKeepsCommandIff(cid: int, ip: string, net: string, addr: string, dcomp: string, hcomp: string)
    requires Printable(Int(cid))
    requires forall f :: f in StringFields(ip, net, addr, dcomp, hcomp) ==> Printable(f)
    ensures var cmd := COMMAND + PrintFields(Fields(cid, ip, net, addr, dcomp, hcomp));
      Rewrite(cmd) == Some(cmd + "\r") <==> |cmd| <= AT_COMMAND_LEN - 2
  {
    var fs := StringFields(ip, net, addr, dcomp, hcomp);
    var cmd := COMMAND + PrintFields([Int(cid)] + fs);
    if |cmd| <= AT_COMMAND_LEN - 2 {
      assert Rewrite(cmd) == Some(cmd + "\r") by {
        StringFieldsAre(ip, net, addr, dcomp, hcomp);
        RewriteKeepsShort(cid, fs);
        PrintedFields(cid, ip, net, addr, dcomp, hcomp);
      }
    } else {
      RewriteIsShort(cmd);
    }
  }

  /** at_tok_nextstr, and the copy made of the string. */
  method NextCopy(input: Tokenizer) returns (copy: string)
    requires input.Valid()
    modifies input`cur, input.text
    ensures input.Valid()
    ensures copy == Copy(old(input.View())) && input.View() == Rest(old(input.View()))
  {
    var err, out := input.NextStr();
    copy := "";
    if err == 0 {
      copy := Clip(StringAt(input.text[..], out), IP_ADDR_MAX);
    }
  }

  /** Once a field is missing the tokenizer stays at its end, so reading on changes nothing: this
      stands for the jumps to `exit`. */
  method CgdcontSetCmdReq(cmd: array<char>) returns (newCmd: Option<string>)
    requires Terminated(cmd[..])
    modifies cmd
    ensures newCmd == Rewrite(old(StringAt(cmd[..], 0)))
  {
    var input := new Tokenizer(cmd, 0);
    var err := input.Start('=');
    if err < 0 {
      return None;
    }
    var cid: int;
    err, cid := input.NextInt();
    if err < 0 {
      return None;
    }
    var ip := NextCopy(input);
    var net := NextCopy(input);
    var addr := NextCopy(input);
    var dcomp := NextCopy(input);
    var hcomp := NextCopy(input);
    newCmd := Some(Clip(Printed(cid, ip, net, addr, dcomp, hcomp) + "\r", AT_COMMAND_LEN));
  }
}
