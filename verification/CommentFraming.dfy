/** The frame every machine comment has: a marker line, a fenced block of pretty-printed JSON,
    nothing else (scripts/actions_request_handler.py). */
module CommentFraming {
  import opened Text
  import Decimal

  // ----- `json.dumps(value, indent=2, sort_keys=True)`

  /** A JSON value; an object keeps its members in key order, as it is printed. */
  datatype Value =
    | VNull
    | VBool(flag: bool)
    | VInt(number: int)
    | VString(text: string)
    | VList(items: seq<Value>)
    | VObject(members: seq<Member>)

  datatype Member = Member(name: string, value: Value)

  function HexChar(d: nat): char
    requires d < 16
    ensures HexChar(d) != '\n'
  {
    "0123456789abcdef"[d]
  }

  function UnicodeEscape(u: nat): string
    requires u < 0x10000
  {
    "\\u" + [HexChar(u / 4096), HexChar(u / 256 % 16), HexChar(u / 16 % 16), HexChar(u % 16)]
  }

  function EscapeChar(c: char): string {
    if c == '"' then "\\\"" else if c == '\\' then "\\\\"
    else if c == '\n' then "\\n" else if c == '\r' then "\\r" else if c == '\t' then "\\t"
    else if c as int == 8 then "\\b" else if c as int == 12 then "\\f"
    else if ' ' <= c <= '~' then [c]
    else if c as int < 0x10000 then UnicodeEscape(c as int)
    else UnicodeEscape(0xD800 + (c as int - 0x10000) / 1024 % 1024) + UnicodeEscape(0xDC00 + (c as int - 0x10000) % 1024)
  }

  function EscapeAll(s: string): string {
    if s == "" then "" else EscapeChar(s[0]) + EscapeAll(s[1..])
  }

  function QuotedString(s: string): string {
    "\"" + EscapeAll(s) + "\""
  }

  function Indent(level: nat): string {
    if level == 0 then "" else "  " + Indent(level - 1)
  }

  function NewLine(level: nat): string {
    "\n" + Indent(level)
  }

  function IntegerText(n: int): string {
    if n < 0 then "-" + Decimal.Text(-n) else Decimal.Text(n)
  }

  function Pretty(v: Value, level: nat): string
    decreases v
  {
    match v
    case VNull => "null"
    case VBool(flag) => if flag then "true" else "false"
    case VInt(n) => IntegerText(n)
    case VString(s) => QuotedString(s)
    case VList(items) =>
      if items == [] then "[]" else "[" + PrettyItems(items, 0, level + 1) + NewLine(level) + "]"
    case VObject(members) =>
      if members == [] then "{}" else "{" + PrettyMembers(members, 0, level + 1) + NewLine(level) + "}"
  }

  function PrettyItems(items: seq<Value>, i: nat, level: nat): string
    requires i <= |items|
    decreases items, |items| - i
  {
    if i == |items| then ""
    else (if i == 0 then "" else ",") + NewLine(level) + Pretty(items[i], level) + PrettyItems(items, i + 1, level)
  }

  function PrettyMember(m: Member, level: nat): string
    decreases m
  {
    QuotedString(m.name) + ": " + Pretty(m.value, level)
  }

  function PrettyMembers(ms: seq<Member>, i: nat, level: nat): string
    requires i <= |ms|
    decreases ms, |ms| - i
  {
    if i == |ms| then ""
    else (if i == 0 then "" else ",") + NewLine(level) + PrettyMember(ms[i], level) + PrettyMembers(ms, i + 1, level)
  }

  // ----- printed JSON never looks like a fence

  /** No line begins with a backquote, none ends in the letter n. */
  predicate Calm(t: string) {
    && t != "" && t[0] != '`' && t[|t| - 1] != 'n'
    && forall i | 0 <= i < |t| && t[i] == '\n' :: (i > 0 ==> t[i - 1] != 'n') && (i + 1 < |t| ==> t[i + 1] != '`')
  }

  lemma CalmTogether(t: string, u: string)
    requires Calm(t) && Calm(u)
    ensures Calm(t + u)
  {
  }

  lemma EscapeIsOneLine(c: char)
    ensures Free(EscapeChar(c), '\n')
  {
  }

  lemma {:induction false} EscapesAreOneLine(s: string)
    ensures Free(EscapeAll(s), '\n')
  {
    hide EscapeChar;
    if s != "" {
      EscapeIsOneLine(s[0]);
      EscapesAreOneLine(s[1..]);
    }
  }

  lemma QuotedIsCalm(s: string)
    ensures Calm(QuotedString(s))
  {
    EscapesAreOneLine(s);
  }

  lemma {:induction false} NewLineIsCalm(level: nat)
    ensures Calm(NewLine(level)) && forall i | 0 <= i < |Indent(level)| :: Indent(level)[i] == ' '
  {
    if level > 0 { NewLineIsCalm(level - 1); }
  }

  lemma IntegerIsCalm(n: int)
    ensures Calm(IntegerText(n))
  {
    var m: nat := if n < 0 then -n else n;
    assert forall i | 0 <= i < |Decimal.Text(m)| :: '0' <= Decimal.Text(m)[i] <= '9';
  }

  lemma {:induction false} PrettyIsCalm(v: Value, level: nat)
    ensures Calm(Pretty(v, level))
    decreases v
  {
    hide Calm;
    match v
    case VNull => assert Calm("null") by { Plain("null"); }
    case VBool(flag) => Plain("true"); Plain("false");
    case VInt(n) => IntegerIsCalm(n);
    case VString(s) => QuotedIsCalm(s);
    case VList(items) =>
      Plain("[]");
      Plain("[");
      Plain("]");
      NewLineIsCalm(level);
      if items != [] {
        ItemsAreCalm(items, 0, level + 1);
        CalmTogether("[", PrettyItems(items, 0, level + 1));
        CalmTogether("[" + PrettyItems(items, 0, level + 1), NewLine(level));
        CalmTogether("[" + PrettyItems(items, 0, level + 1) + NewLine(level), "]");
      }
    case VObject(ms) =>
      Plain("{}");
      Plain("{");
      Plain("}");
      NewLineIsCalm(level);
      if ms != [] {
        MembersAreCalm(ms, 0, level + 1);
        CalmTogether("{", PrettyMembers(ms, 0, level + 1));
        CalmTogether("{" + PrettyMembers(ms, 0, level + 1), NewLine(level));
        CalmTogether("{" + PrettyMembers(ms, 0, level + 1) + NewLine(level), "}");
      }
  }

  /** A text on one line that does not begin or end badly. */
  lemma Plain(t: string)
    requires t != "" && t[0] != '`' && t[|t| - 1] != 'n' && Free(t, '\n')
    ensures Calm(t)
  {
  }

  lemma SeparatedIsCalm(first: bool, level: nat, t: string)
    requires Calm(t)
    ensures Calm((if first then "" else ",") + NewLine(level) + t)
  {
    NewLineIsCalm(level);
    Plain(",");
    hide Calm;
    CalmTogether(",", NewLine(level));
    CalmTogether(NewLine(level), t);
    CalmTogether("," + NewLine(level), t);
    assert "" + NewLine(level) + t == NewLine(level) + t;
  }

  lemma {:induction false} ItemsAreCalm(items: seq<Value>, i: nat, level: nat)
    requires i < |items|
    ensures Calm(PrettyItems(items, i, level))
    decreases items, |items| - i
  {
    hide Calm;
    PrettyIsCalm(items[i], level);
    SeparatedIsCalm(i == 0, level, Pretty(items[i], level));
    var head := (if i == 0 then "" else ",") + NewLine(level) + Pretty(items[i], level);
    if i + 1 < |items| {
      ItemsAreCalm(items, i + 1, level);
      CalmTogether(head, PrettyItems(items, i + 1, level));
    } else {
      assert head + "" == head;
    }
  }

  lemma {:induction false} MembersAreCalm(ms: seq<Member>, i: nat, level: nat)
    requires i < |ms|
    ensures Calm(PrettyMembers(ms, i, level))
    decreases ms, |ms| - i
  {
    QuotedIsCalm(ms[i].name);
    Plain(": ");
    hide Calm;
    PrettyIsCalm(ms[i].value, level);
    CalmTogether(QuotedString(ms[i].name), ": ");
    CalmTogether(QuotedString(ms[i].name) + ": ", Pretty(ms[i].value, level));
    SeparatedIsCalm(i == 0, level, PrettyMember(ms[i], level));
    var head := (if i == 0 then "" else ",") + NewLine(level) + PrettyMember(ms[i], level);
    if i + 1 < |ms| {
      MembersAreCalm(ms, i + 1, level);
      CalmTogether(head, PrettyMembers(ms, i + 1, level));
    } else {
      assert head + "" == head;
    }
  }

  // ----- the frame

  const OPEN := "```json\n"
  const CLOSE := "\n```\n"

  function Frame(marker: string, json: string): string {
    marker + "\n" + OPEN + json + CLOSE
  }

  /** The checks on the shape of a body: one fence opened, one closed, on the right lines. */
  predicate Shaped(body: string) {
    var lines := Split(body, '\n');
    && Count(body, OPEN) == 1 && Count(body, CLOSE) == 1
    && |lines| >= 4 && lines[1] == "```json" && lines[|lines| - 2] == "```" && lines[|lines| - 1] == ""
  }

  function FirstLine(body: string): string {
    Split(body, '\n')[0]
  }

  /** The lines between the fences. */
  function Fenced(body: string): string
    requires Shaped(body)
  {
    var lines := Split(body, '\n');
    Join(lines[2..|lines| - 2], '\n')
  }

  lemma CharacterOf(s: string, t: string, i: nat, k: nat)
    requires OccursAt(s, t, i) && k < |t|
    ensures i + k < |s| && s[i + k] == t[k]
  {
    assert s[i..i + |t|][k] == s[i + k];
  }

  /** Where a newline of a framed comment is, and what stands on both sides of it. */
  lemma NewLinesOfFrame(marker: string, json: string, i: nat)
    requires Free(marker, '\n') && marker != "" && marker[|marker| - 1] != 'n' && Calm(json)
    requires var body := Frame(marker, json); i < |body| && body[i] == '\n'
    ensures var body := Frame(marker, json);
            && (i > 0 && body[i - 1] == 'n' ==> i == |marker| + 8)
            && (i + 1 < |body| && body[i + 1] == '`' && i != |marker| ==> i == |body| - 5)
  {
    var body := Frame(marker, json);
    var m := |marker|;
    assert body[..m] == marker;
    assert body[m..m + 9] == "\n" + OPEN;
    assert body[m + 9..m + 9 + |json|] == json;
    assert body[m + 9 + |json|..] == CLOSE;
    if m <= i < m + 9 {
      assert body[i] == body[m..m + 9][i - m];
    } else if m + 9 <= i < m + 9 + |json| {
      assert body[i] == json[i - m - 9];
    } else if m + 9 + |json| <= i {
      assert body[i] == CLOSE[i - m - 9 - |json|];
    }
  }

  lemma FenceIsUnique(marker: string, json: string)
    requires Free(marker, '\n') && marker != "" && marker[|marker| - 1] != 'n' && Calm(json)
    ensures Count(Frame(marker, json), OPEN) == 1 && Count(Frame(marker, json), CLOSE) == 1
  {
    var body := Frame(marker, json);
    var m := |marker|;
    assert body[m + 1..m + 9] == OPEN;
    assert body[|body| - 5..|body|] == CLOSE;
    assert body[m + 4] == body[m + 1..m + 9][3];
    hide Calm, Frame;
    forall j | 0 <= j && j != m + 1 ensures !OccursAt(body, OPEN, j) {
      if OccursAt(body, OPEN, j) {
        CharacterOf(body, OPEN, j, 6);
        CharacterOf(body, OPEN, j, 7);
        NewLinesOfFrame(marker, json, j + 7);
      }
    }
    CountOnce(body, OPEN, 0, m + 1);
    forall j | 0 <= j && j != |body| - 5 ensures !OccursAt(body, CLOSE, j) {
      if OccursAt(body, CLOSE, j) {
        CharacterOf(body, CLOSE, j, 0);
        CharacterOf(body, CLOSE, j, 1);
        CharacterOf(body, CLOSE, j, 4);
        NewLinesOfFrame(marker, json, j);
      }
    }
    CountOnce(body, CLOSE, 0, |body| - 5);
  }

  lemma LinesOfFrame(marker: string, json: string)
    requires Free(marker, '\n')
    ensures Split(Frame(marker, json), '\n') == [marker, "```json"] + Split(json, '\n') + ["```", ""]
  {
    hide Split;
    var end := json + ['\n'] + "```" + ['\n'] + "";
    var rest := "```json" + ['\n'] + end;
    FrameAsLines(marker, json);
    SplitFirst(marker, rest, '\n');
    SplitFirst("```json", end, '\n');
    SplitLast(json + ['\n'] + "```", "", '\n');
    SplitLast(json, "```", '\n');
    assert [marker] + (["```json"] + (Split(json, '\n') + ["```"] + [""])) == [marker, "```json"] + Split(json, '\n') + ["```", ""];
  }

  lemma FrameAsLines(marker: string, json: string)
    ensures Frame(marker, json) == marker + ['\n'] + ("```json" + ['\n'] + (json + ['\n'] + "```" + ['\n'] + ""))
  {
    assert OPEN == "```json" + ['\n'] && CLOSE == ['\n'] + "```" + ['\n'];
  }

  /** What was framed is read back: the shape is accepted, the marker is the first line and the
      JSON text is what stands between the fences. */
  lemma FrameReadsBack(marker: string, json: string)
    requires Free(marker, '\n') && marker != "" && marker[|marker| - 1] != 'n' && Calm(json)
    ensures var body := Frame(marker, json);
            Shaped(body) && FirstLine(body) == marker && Fenced(body) == json
  {
    hide Frame, Calm, Count;
    FenceIsUnique(marker, json);
    LinesOfFrame(marker, json);
    var middle := Split(json, '\n');
    var lines := [marker, "```json"] + middle + ["```", ""];
    assert lines[2..|lines| - 2] == middle;
    JoinOfSplit(json, '\n');
  }

  /** A marker prefix that begins a comment occurs once exactly when the JSON text is free of it. */
  lemma PrefixCount(prefix: string, rest: string, json: string)
    requires prefix != "" && prefix[0] == '<' && Free(prefix, '\n') && Free(prefix[1..], '<') && Free(rest, '<') && Free(rest, '\n')
    ensures Count(Frame(prefix + rest, json), prefix) == 1 <==> !Contains(json, prefix)
  {
    var body := Frame(prefix + rest, json);
    var start := |prefix + rest| + 9;
    assert body[..|prefix|] == prefix;
    assert body[start..start + |json|] == json;
    forall j | 0 < j && OccursAt(body, prefix, j) ensures j >= start && OccursAt(json, prefix, j - start) {
      OutsideJson(prefix, rest, json, j);
    }
    if Contains(json, prefix) {
      var i :| 0 <= i <= |json| && OccursAt(json, prefix, i);
      assert body[start + i..start + i + |prefix|] == json[i..i + |prefix|];
      CountTwice(body, prefix, start + i);
    } else {
      CountOnce(body, prefix, 0, 0);
    }
  }

  /** After its first character a framed comment has the character `<` only in its JSON. */
  lemma WhereBracketsAre(prefix: string, rest: string, json: string)
    requires prefix != "" && Free(prefix[1..], '<') && Free(rest, '<')
    ensures var body := Frame(prefix + rest, json);
            var start := |prefix + rest| + 9;
            && (forall k | 0 < k < start :: body[k] != '<')
            && (forall k | start + |json| <= k < |body| :: body[k] != '<')
            && start + |json| < |body| && body[start + |json|] == '\n' && body[start..start + |json|] == json
  {
    var body := Frame(prefix + rest, json);
    var m := |prefix + rest|;
    var end := m + 9 + |json|;
    assert body[..m] == prefix + rest;
    assert forall k | 0 < k < |prefix| :: prefix[k] == prefix[1..][k - 1];
    assert body[m..m + 9] == "\n" + OPEN;
    assert body[m + 9..end] == json;
    assert body[end..] == CLOSE;
    forall k | 0 < k < m + 9 ensures body[k] != '<' {
      if k < m { assert body[k] == (prefix + rest)[k]; } else { assert body[k] == body[m..m + 9][k - m]; }
    }
    forall k | end <= k < |body| ensures body[k] != '<' { assert body[k] == CLOSE[k - end]; }
    assert body[end] == CLOSE[0];
  }

  lemma OutsideJson(prefix: string, rest: string, json: string, j: nat)
    requires prefix != "" && prefix[0] == '<' && Free(prefix, '\n') && Free(prefix[1..], '<') && Free(rest, '<')
    requires var body := Frame(prefix + rest, json); 0 < j && OccursAt(body, prefix, j)
    ensures var start := |prefix + rest| + 9; j >= start && OccursAt(json, prefix, j - start)
  {
    var body := Frame(prefix + rest, json);
    var start := |prefix + rest| + 9;
    var end := start + |json|;
    WhereBracketsAre(prefix, rest, json);
    hide Frame;
    CharacterOf(body, prefix, j, 0);
    assert start <= j < end;
    if j + |prefix| > end { CharacterOf(body, prefix, j, end - j); }
    assert body[j..j + |prefix|] == body[start..end][j - start..j - start + |prefix|];
  }
}
