/** `json.loads` for the comment formats: the project's JSON parser without its nesting limit,
    and the Python value of what it reads. Loading what `json.dumps` pretty-printed gives the
    value back, because the printed text is that of a proper syntax tree. */
module CommentJson {
  import opened Ascii
  import opened Common
  import opened Utf8
  import opened JsonValue
  import opened JsonPrinter
  import opened JsonParser
  import opened JsonSyntax
  import opened JsonAcceptance
  import opened CommentFraming
  import Decimal

  // ----- texts as characters, as scalar values and as bytes

  function ScalarsOf(s: string): (t: Str)
    ensures |t| == |s|
  {
    seq(|s|, i requires 0 <= i < |s| => s[i] as int)
  }

  function TextOf(t: Str): (s: string)
    ensures |s| == |t|
  {
    seq(|t|, i requires 0 <= i < |t| => t[i] as char)
  }

  lemma TextOfScalars(s: string)
    ensures TextOf(ScalarsOf(s)) == s
  {
    assert forall i | 0 <= i < |s| :: TextOf(ScalarsOf(s))[i] == s[i];
  }

  function BytesOf(s: string): Bytes {
    EncodeAll(ScalarsOf(s))
  }

  // ----- Python dictionaries: members with different names, kept in name order

  predicate NameLess(a: string, b: string) {
    LexLess(ScalarsOf(a), ScalarsOf(b))
  }

  predicate InNameOrder(ms: seq<Member>) {
    forall i, j | 0 <= i < j < |ms| :: NameLess(ms[i].name, ms[j].name)
  }

  /** Every dictionary in the value is in name order. */
  predicate Ordered(v: Value)
    decreases v
  {
    match v
    case VList(items) => forall i | 0 <= i < |items| :: Ordered(items[i])
    case VObject(ms) => InNameOrder(ms) && forall i | 0 <= i < |ms| :: OrderedMember(ms[i])
    case _ => true
  }

  predicate OrderedMember(m: Member)
    decreases m
  {
    Ordered(m.value)
  }

  function InsertMember(m: Member, ms: seq<Member>): seq<Member> {
    if ms == [] || NameLess(m.name, ms[0].name) then [m] + ms else [ms[0]] + InsertMember(m, ms[1..])
  }

  // ----- loading

  /** The Python value of a parsed text; floating-point numbers are not modelled. */
  function FromJson(v: Json): Option<Value>
    decreases v
  {
    match v
    case Null => Some(VNull)
    case Bool(flag) => Some(VBool(flag))
    case Number(t) => if JsonValue.IntegerText(t) && Unsigned(t) != [] then Some(VInt(IntegerValue(t))) else None
    case String(s) => Some(VString(TextOf(s)))
    case Array(vs) =>
      (match FromItems(vs, 0) case None => None case Some(items) => Some(VList(items)))
    case Object(ms) =>
      match FromMembers(ms, 0) case None => None case Some(members) => Some(VObject(members))
  }

  function FromItems(vs: seq<Json>, i: nat): Option<seq<Value>>
    requires i <= |vs|
    decreases vs, |vs| - i
  {
    if i == |vs| then Some([])
    else match FromJson(vs[i])
      case None => None
      case Some(v) => match FromItems(vs, i + 1) case None => None case Some(rest) => Some([v] + rest)
  }

  function FromKeyed(m: Keyed<Json>): Option<Member>
    decreases m
  {
    match FromJson(m.value) case None => None case Some(v) => Some(Member(TextOf(m.key), v))
  }

  function FromMembers(ms: seq<Keyed<Json>>, i: nat): Option<seq<Member>>
    requires i <= |ms|
    decreases ms, |ms| - i
  {
    if i == |ms| then Some([])
    else match FromKeyed(ms[i])
      case None => None
      case Some(m) => match FromMembers(ms, i + 1) case None => None case Some(rest) => Some(InsertMember(m, rest))
  }

  /** No text nests deeper than it is long, so the limit given to the parser never stops it. */
  function Loads(s: string): Option<Value> {
    var bs := BytesOf(s);
    match ParseWithin(bs, |bs| + MAX_DEPTH)
    case Err(_) => None
    case Ok(v) => FromJson(v)
  }

  // ----- printed text as ASCII bytes

  predicate IsAscii(s: string) {
    forall i | 0 <= i < |s| :: s[i] as int < 0x80
  }

  function Code(c: char): Byte {
    if c as int < 0x80 then c as int else 0
  }

  function Codes(s: string): (bs: Bytes)
    ensures |bs| == |s|
  {
    seq(|s|, i requires 0 <= i < |s| => Code(s[i]))
  }

  lemma {:induction false} AsciiBytes(s: string)
    requires IsAscii(s)
    ensures BytesOf(s) == Codes(s)
  {
    if s == "" {
    } else {
      AsciiBytes(s[1..]);
      assert ScalarsOf(s)[1..] == ScalarsOf(s[1..]);
      assert Codes(s) == [Code(s[0])] + Codes(s[1..]);
    }
  }

  lemma CodesTogether(s: string, t: string)
    ensures Codes(s + t) == Codes(s) + Codes(t)
  {
  }

  // ----- how the printer spells strings

  function HexCodes(u: nat): (ds: Bytes)
    requires u < 0x10000
  {
    [HexDigit(u / 4096), HexDigit(u / 256 % 16), HexDigit(u / 16 % 16), HexDigit(u % 16)]
  }

  lemma FourDigits(u: nat)
    ensures u / 4096 * 4096 + u / 256 % 16 * 256 + u / 16 % 16 * 16 + u % 16 == u
  {
    assert u / 256 == u / 16 / 16 && u / 4096 == u / 16 / 16 / 16;
  }

  lemma HexCodesAreRight(u: nat)
    requires u < 0x10000
    ensures FourHex(HexCodes(u)) && Hex4(HexCodes(u), 0) == u
  {
    FourDigits(u);
    hide HexDigit, HexValue, IsHex;
  }

  function SpellingOf(c: char): Spelling {
    if c == '"' then Short(0x22) else if c == '\\' then Short(0x5C)
    else if c == '\n' then Short(0x6E) else if c == '\r' then Short(0x72) else if c == '\t' then Short(0x74)
    else if c as int == 8 then Short(0x62) else if c as int == 12 then Short(0x66)
    else if ' ' <= c <= '~' then Raw(c as int)
    else if c as int < 0x10000 then Hex(HexCodes(c as int))
    else Pair(HexCodes(0xD800 + (c as int - 0x10000) / 1024 % 1024), HexCodes(0xDC00 + (c as int - 0x10000) % 1024))
  }

  lemma HexCharCode(d: nat)
    requires d < 16
    ensures HexChar(d) as int < 0x80 && Code(HexChar(d)) == HexDigit(d)
  {
  }

  lemma EscapeCodes(u: nat)
    requires u < 0x10000
    ensures IsAscii(CommentFraming.UnicodeEscape(u)) && Codes(CommentFraming.UnicodeEscape(u)) == [0x5C, 0x75] + HexCodes(u)
  {
    HexCharCode(u / 4096);
    HexCharCode(u / 256 % 16);
    HexCharCode(u / 16 % 16);
    HexCharCode(u % 16);
    hide HexChar, HexDigit;
  }

  /** A spelling is right when it is well formed, stands for the character and is what the
      printer writes. */
  predicate RightSpelling(c: char) {
    && WellSpelt(SpellingOf(c)) && Spells(SpellingOf(c)) == c as int
    && IsAscii(EscapeChar(c)) && Codes(EscapeChar(c)) == Spelt(SpellingOf(c))
  }

  lemma SpellingIsRight(c: char)
    ensures RightSpelling(c)
  {
    hide RightSpelling;
    if ' ' <= c <= '~' || c as int in {8, 9, 10, 12, 13} { PlainSpelling(c); }
    else if c as int < 0x10000 { HexSpelling(c); }
    else { PairSpelling(c); }
  }

  lemma PlainSpelling(c: char)
    requires ' ' <= c <= '~' || c as int in {8, 9, 10, 12, 13}
    ensures RightSpelling(c)
  {
    hide RightSpelling;
    if ' ' <= c <= '~' && c != '"' && c != '\\' { RawSpelling(c); } else { ShortSpelling(c); }
  }

  lemma RawSpelling(c: char)
    requires ' ' <= c <= '~' && c != '"' && c != '\\'
    ensures RightSpelling(c)
  {
    hide CommentFraming.UnicodeEscape, HexCodes, HexValue, FourHex, Hex4;
    assert EscapeChar(c) == [c] && SpellingOf(c) == Raw(c as int);
    hide EscapeChar, SpellingOf;
    assert Codes([c]) == [c as int];
  }

  lemma ShortSpelling(c: char)
    requires c == '"' || c == '\\' || c as int in {8, 9, 10, 12, 13}
    ensures RightSpelling(c)
  {
    hide CommentFraming.UnicodeEscape, HexCodes, HexValue, FourHex, Hex4;
    assert |EscapeChar(c)| == 2 && EscapeChar(c)[0] == '\\' && SpellingOf(c) == Short(EscapeChar(c)[1] as int);
    assert ShortMeaning(SpellingOf(c).letter) == Some(c as int);
    hide EscapeChar, SpellingOf, ShortMeaning;
    assert Codes(EscapeChar(c)) == [0x5C, EscapeChar(c)[1] as int];
  }

  lemma HexSpelling(c: char)
    requires !(' ' <= c <= '~') && c as int !in {8, 9, 10, 12, 13} && c as int < 0x10000
    ensures RightSpelling(c)
  {
    hide CommentFraming.UnicodeEscape, HexCodes, FourHex, Hex4;
    HexCodesAreRight(c as int);
    EscapeCodes(c as int);
  }

  lemma PairSpelling(c: char)
    requires c as int >= 0x10000
    ensures RightSpelling(c)
  {
    hide CommentFraming.UnicodeEscape, HexCodes, FourHex, Hex4, IsAscii, Codes;
    var high, low := 0xD800 + (c as int - 0x10000) / 1024 % 1024, 0xDC00 + (c as int - 0x10000) % 1024;
    HexCodesAreRight(high);
    HexCodesAreRight(low);
    EscapeCodes(high);
    EscapeCodes(low);
    CodesTogether(CommentFraming.UnicodeEscape(high), CommentFraming.UnicodeEscape(low));
    AsciiTogether(CommentFraming.UnicodeEscape(high), CommentFraming.UnicodeEscape(low));
    assert (c as int - 0x10000) / 1024 < 1024;
  }

  lemma AsciiTogether(s: string, t: string)
    requires IsAscii(s) && IsAscii(t)
    ensures IsAscii(s + t)
  {
  }

  function Spellings(s: string): (ss: seq<Spelling>)
    ensures |ss| == |s|
  {
    seq(|s|, i requires 0 <= i < |s| => SpellingOf(s[i]))
  }

  lemma {:induction false} EscapesAreSpelt(s: string)
    ensures AllSpelt(Spellings(s)) && SpellsAll(Spellings(s)) == ScalarsOf(s)
    ensures IsAscii(EscapeAll(s)) && Codes(EscapeAll(s)) == SpeltAll(Spellings(s))
  {
    hide EscapeChar, SpellingOf, WellSpelt, Spelt, Spells;
    forall i | 0 <= i < |s| ensures WellSpelt(Spellings(s)[i]) && SpellsAll(Spellings(s))[i] == ScalarsOf(s)[i] {
      SpellingIsRight(s[i]);
    }
    if s != "" {
      SpellingIsRight(s[0]);
      EscapesAreSpelt(s[1..]);
      assert Spellings(s)[1..] == Spellings(s[1..]);
      CodesTogether(EscapeChar(s[0]), EscapeAll(s[1..]));
    }
  }

  lemma QuotedIsSpelt(s: string)
    ensures AllSpelt(Spellings(s)) && TextOf(SpellsAll(Spellings(s))) == s
    ensures IsAscii(QuotedString(s)) && Codes(QuotedString(s)) == QuotedText(Spellings(s))
  {
    hide SpeltAll, EscapeAll, AllSpelt;
    EscapesAreSpelt(s);
    TextOfScalars(s);
    CodesTogether("\"", EscapeAll(s));
    CodesTogether("\"" + EscapeAll(s), "\"");
    assert Codes("\"") == [0x22];
  }

  // ----- numbers

  lemma NumeralCodes(n: nat)
    ensures IsAscii(Decimal.Text(n)) && Codes(Decimal.Text(n)) == DigitBytes(n)
  {
  }

  lemma IntegerCodes(n: int)
    ensures IsAscii(CommentFraming.IntegerText(n)) && Codes(CommentFraming.IntegerText(n)) == IntegerBytes(n)
  {
    hide Decimal.Text, DigitBytes;
    if n < 0 {
      NumeralCodes(-n);
      CodesTogether("-", Decimal.Text(-n));
    } else {
      NumeralCodes(n);
    }
  }

  lemma IntegerIsNumber(n: int)
    ensures NumberText(IntegerBytes(n))
  {
    var digits: Bytes := DigitBytes(if n < 0 then -n else n);
    var minus: Bytes := if n < 0 then [0x2D] else [];
    assert NumberOf(minus, digits, [], []);
    assert IntegerBytes(n) == minus + digits + [] + [];
  }

  // ----- the printed text as a syntax tree

  function TreeOf(v: Value, level: nat): Syntax
    decreases v, 0
  {
    match v
    case VNull => Word(Null)
    case VBool(flag) => Word(Bool(flag))
    case VInt(n) => Digits(IntegerBytes(n))
    case VString(s) => Quote(Spellings(s))
    case VList(items) => List(ItemsOf(items, level), [])
    case VObject(ms) => Dict(EntriesOf(ms, level), [])
  }

  function ItemOf(v: Value, level: nat, last: bool): Item
    decreases v, 1
  {
    Item(Codes(NewLine(level + 1)), TreeOf(v, level + 1), if last then Codes(NewLine(level)) else [])
  }

  function ItemsOf(items: seq<Value>, level: nat): (xs: seq<Item>)
    ensures |xs| == |items|
    decreases items, 2
  {
    seq(|items|, i requires 0 <= i < |items| => ItemOf(items[i], level, i + 1 == |items|))
  }

  function EntryOf(m: Member, level: nat, last: bool): Entry
    decreases m, 1
  {
    Entry(Codes(NewLine(level + 1)), Spellings(m.name), [],
          Item([0x20], TreeOf(m.value, level + 1), if last then Codes(NewLine(level)) else []))
  }

  function EntriesOf(ms: seq<Member>, level: nat): (es: seq<Entry>)
    ensures |es| == |ms|
    decreases ms, 2
  {
    seq(|ms|, i requires 0 <= i < |ms| => EntryOf(ms[i], level, i + 1 == |ms|))
  }

  // ----- its text

  lemma {:induction false} IndentIsSpace(level: nat)
    ensures IsAscii(Indent(level)) && Spaces(Codes(Indent(level)))
  {
    if level > 0 {
      IndentIsSpace(level - 1);
      CodesTogether("  ", Indent(level - 1));
    }
  }

  lemma NewLineIsSpace(level: nat)
    ensures IsAscii(NewLine(level)) && Spaces(Codes(NewLine(level)))
  {
    IndentIsSpace(level);
    CodesTogether("\n", Indent(level));
  }

  predicate Prints(s: string, bs: Bytes) {
    IsAscii(s) && Codes(s) == bs
  }

  lemma PrintsTogether(s: string, bs: Bytes, t: string, cs: Bytes)
    requires Prints(s, bs) && Prints(t, cs)
    ensures Prints(s + t, bs + cs)
  {
    CodesTogether(s, t);
  }

  lemma {:induction false} TreeHasTheText(v: Value, level: nat)
    ensures Prints(Pretty(v, level), Render(TreeOf(v, level)))
    decreases v, 0
  {
    hide Codes, IsAscii, Prints;
    match v
    case VNull => WordsPrint();
    case VBool(flag) => WordsPrint();
    case VInt(n) => IntegerCodes(n); assert Prints(Pretty(v, level), IntegerBytes(n)) by { Both(Pretty(v, level), IntegerBytes(n)); }
    case VString(s) => QuotedIsSpelt(s); Both(QuotedString(s), QuotedText(Spellings(s)));
    case VList(items) =>
      if items == [] { EmptyHasTheText(level); }
      else { ItemsHaveTheText(items, 0, level); ListHasTheText(items, level); }
    case VObject(ms) =>
      if ms == [] { EmptyHasTheText(level); }
      else { EntriesHaveTheText(ms, 0, level); DictHasTheText(ms, level); }
  }

  lemma Both(s: string, bs: Bytes)
    requires IsAscii(s) && Codes(s) == bs
    ensures Prints(s, bs)
  {
  }

  lemma WordsPrint()
    ensures Prints("null", NULL) && Prints("true", TRUE) && Prints("false", FALSE)
    ensures Prints("[]", [0x5B, 0x5D]) && Prints("{}", [0x7B, 0x7D])
    ensures Prints("[", [0x5B]) && Prints("]", [0x5D]) && Prints("{", [0x7B]) && Prints("}", [0x7D])
    ensures Prints(",", [0x2C]) && Prints(":", [0x3A]) && Prints(" ", [0x20]) && Prints("", [])
  {
  }

  /** The items from `i` on with the end of the list, as printed. */
  function ItemsText(items: seq<Value>, i: nat, level: nat): string
    requires i <= |items|
  {
    PrettyItems(items, i, level + 1) + NewLine(level) + "]"
  }

  function MembersText(ms: seq<Member>, i: nat, level: nat): string
    requires i <= |ms|
  {
    PrettyMembers(ms, i, level + 1) + NewLine(level) + "}"
  }

  /** One separated line. */
  function Line(i: nat, level: nat, t: string): string {
    (if i == 0 then "" else ",") + NewLine(level) + t
  }

  lemma ItemsTextStep(items: seq<Value>, i: nat, level: nat)
    requires i < |items|
    ensures ItemsText(items, i, level)
            == Line(i, level + 1, Pretty(items[i], level + 1))
               + if i + 1 < |items| then ItemsText(items, i + 1, level) else NewLine(level) + "]"
  {
    hide Pretty, NewLine;
    var line, rest := Line(i, level + 1, Pretty(items[i], level + 1)), PrettyItems(items, i + 1, level + 1);
    assert PrettyItems(items, i, level + 1) == line + rest;
    assert line + rest + NewLine(level) + "]" == line + (rest + NewLine(level) + "]");
    assert "" + NewLine(level) + "]" == NewLine(level) + "]";
  }

  lemma MembersTextStep(ms: seq<Member>, i: nat, level: nat)
    requires i < |ms|
    ensures MembersText(ms, i, level)
            == Line(i, level + 1, PrettyMember(ms[i], level + 1))
               + if i + 1 < |ms| then MembersText(ms, i + 1, level) else NewLine(level) + "}"
  {
    hide PrettyMember, NewLine;
    var line, rest := Line(i, level + 1, PrettyMember(ms[i], level + 1)), PrettyMembers(ms, i + 1, level + 1);
    assert PrettyMembers(ms, i, level + 1) == line + rest;
    assert line + rest + NewLine(level) + "}" == line + (rest + NewLine(level) + "}");
    assert "" + NewLine(level) + "}" == NewLine(level) + "}";
  }

  function Separator(i: nat): Bytes {
    if i == 0 then [] else [0x2C]
  }

  lemma EmptyHasTheText(level: nat)
    ensures Prints(Pretty(VList([]), level), Render(TreeOf(VList([]), level)))
    ensures Prints(Pretty(VObject([]), level), Render(TreeOf(VObject([]), level)))
  {
    hide Prints;
    WordsPrint();
    assert ItemsOf([], level) == [] && EntriesOf([], level) == [];
    assert Render(List([], [])) == [0x5B] + ([] + [0x5D]) == [0x5B, 0x5D];
    assert Render(Dict([], [])) == [0x7B] + ([] + [0x7D]) == [0x7B, 0x7D];
  }

  lemma ListHasTheText(items: seq<Value>, level: nat)
    requires items != [] && Prints(ItemsText(items, 0, level), Separator(0) + RenderItems(ItemsOf(items, level), 0))
    ensures Prints(Pretty(VList(items), level), Render(TreeOf(VList(items), level)))
  {
    hide Prints;
    var xs := ItemsOf(items, level);
    WordsPrint();
    PrintsTogether("[", [0x5B], ItemsText(items, 0, level), RenderItems(xs, 0)) by {
      assert Separator(0) + RenderItems(xs, 0) == RenderItems(xs, 0);
    }
    assert Pretty(VList(items), level) == "[" + ItemsText(items, 0, level);
    assert Render(List(xs, [])) == [0x5B] + ([] + RenderItems(xs, 0));
    assert [] + RenderItems(xs, 0) == RenderItems(xs, 0);
  }

  lemma DictHasTheText(ms: seq<Member>, level: nat)
    requires ms != [] && Prints(MembersText(ms, 0, level), Separator(0) + RenderEntries(EntriesOf(ms, level), 0))
    ensures Prints(Pretty(VObject(ms), level), Render(TreeOf(VObject(ms), level)))
  {
    hide Prints;
    var es := EntriesOf(ms, level);
    WordsPrint();
    PrintsTogether("{", [0x7B], MembersText(ms, 0, level), RenderEntries(es, 0)) by {
      assert Separator(0) + RenderEntries(es, 0) == RenderEntries(es, 0);
    }
    assert Pretty(VObject(ms), level) == "{" + MembersText(ms, 0, level);
    assert Render(Dict(es, [])) == [0x7B] + ([] + RenderEntries(es, 0));
    assert [] + RenderEntries(es, 0) == RenderEntries(es, 0);
  }

  lemma LaterSeparator(i: nat)
    ensures Separator(i + 1) == [0x2C]
  {
  }

  /** How the bytes of one line and of what follows it are grouped. */
  lemma Regrouped(separator: Bytes, before: Bytes, text: Bytes, after: Bytes, rest: Bytes)
    ensures separator + (before + (text + after) + rest) == separator + (before + text) + (after + rest)
    ensures [] + rest == rest && after + ([0x5D] + []) == after + [0x5D] && after + ([0x7D] + []) == after + [0x7D]
  {
  }

  lemma SeparatorPrints(i: nat)
    ensures Prints(if i == 0 then "" else ",", Separator(i))
  {
  }

  lemma NewLinePrints(level: nat)
    ensures Prints(NewLine(level), Codes(NewLine(level)))
  {
    NewLineIsSpace(level);
  }

  /** A separated line: the separator, a new line and the text on it. */
  lemma LinePrints(i: nat, level: nat, t: string, bs: Bytes)
    requires Prints(t, bs)
    ensures Prints(Line(i, level, t), Separator(i) + (Codes(NewLine(level)) + bs))
  {
    hide Prints, Separator, NewLine;
    var comma := if i == 0 then "" else ",";
    SeparatorPrints(i);
    NewLinePrints(level);
    PrintsTogether(NewLine(level), Codes(NewLine(level)), t, bs);
    PrintsTogether(comma, Separator(i), NewLine(level) + t, Codes(NewLine(level)) + bs);
    assert comma + (NewLine(level) + t) == comma + NewLine(level) + t;
  }

  /** The end of a list or an object: its last new line and bracket. */
  lemma EndPrints(level: nat, close: string, b: Byte)
    requires Prints(close, [b])
    ensures Prints(NewLine(level) + close, Codes(NewLine(level)) + [b])
  {
    hide Prints;
    NewLinePrints(level);
    PrintsTogether(NewLine(level), Codes(NewLine(level)), close, [b]);
  }

  lemma {:induction false} ItemsHaveTheText(items: seq<Value>, i: nat, level: nat)
    requires i < |items|
    ensures Prints(ItemsText(items, i, level), Separator(i) + RenderItems(ItemsOf(items, level), i))
    decreases items, 1, |items| - i
  {
    hide Prints, Separator, ItemsText, Line, Codes, Pretty, TreeOf, NewLine, Render;
    var xs := ItemsOf(items, level);
    var last := i + 1 == |items|;
    assert xs[i] == ItemOf(items[i], level, last);
    var t, bs := Pretty(items[i], level + 1), Render(TreeOf(items[i], level + 1));
    TreeHasTheText(items[i], level + 1);
    LinePrints(i, level + 1, t, bs);
    RenderItemsStep(xs, i);
    var before, after: Bytes := Codes(NewLine(level + 1)), if last then Codes(NewLine(level)) else [];
    var rest := Follow(last, 0x5D) + RenderItems(xs, i + 1);
    Regrouped(Separator(i), before, bs, after, rest);
    assert RenderItem(xs[i]) == before + (bs + after);
    var line := Line(i, level + 1, t);
    ItemsTextStep(items, i, level);
    if !last {
      ItemsHaveTheText(items, i + 1, level);
      LaterSeparator(i);
      PrintsTogether(line, Separator(i) + (before + bs), ItemsText(items, i + 1, level), rest);
    } else {
      WordsPrint();
      EndPrints(level, "]", 0x5D);
      NoMoreItems(xs);
      PrintsTogether(line, Separator(i) + (before + bs), NewLine(level) + "]", after + rest);
    }
  }

  function MemberBytes(m: Member, level: nat): Bytes {
    QuotedText(Spellings(m.name)) + ([0x3A] + ([0x20] + Render(TreeOf(m.value, level))))
  }

  lemma {:induction false} MemberHasTheText(m: Member, level: nat)
    ensures Prints(PrettyMember(m, level), MemberBytes(m, level))
    decreases m, 1
  {
    hide Prints, TreeOf, Render, Pretty, QuotedString;
    TreeHasTheText(m.value, level);
    WordsPrint();
    QuotedIsSpelt(m.name);
    Both(QuotedString(m.name), QuotedText(Spellings(m.name)));
    var t, bs := Pretty(m.value, level), Render(TreeOf(m.value, level));
    PrintsTogether(" ", [0x20], t, bs);
    PrintsTogether(":", [0x3A], " " + t, [0x20] + bs);
    PrintsTogether(QuotedString(m.name), QuotedText(Spellings(m.name)), ":" + (" " + t), [0x3A] + ([0x20] + bs));
    assert PrettyMember(m, level) == QuotedString(m.name) + (":" + (" " + t));
  }

  lemma EntryBytes(m: Member, level: nat, last: bool)
    ensures RenderEntry(EntryOf(m, level, last))
            == Codes(NewLine(level + 1)) + (MemberBytes(m, level + 1) + if last then Codes(NewLine(level)) else [])
  {
    hide TreeOf, NewLine, Codes, Render, QuotedText;
    var tree, after: Bytes := Render(TreeOf(m.value, level + 1)), if last then Codes(NewLine(level)) else [];
    EntryRegrouped(QuotedText(Spellings(m.name)), tree, after);
  }

  lemma EntryRegrouped(key: Bytes, tree: Bytes, after: Bytes)
    ensures key + ([] + ([0x3A] + ([0x20] + (tree + after)))) == key + ([0x3A] + ([0x20] + tree)) + after
  {
  }

  lemma {:induction false} EntriesHaveTheText(ms: seq<Member>, i: nat, level: nat)
    requires i < |ms|
    ensures Prints(MembersText(ms, i, level), Separator(i) + RenderEntries(EntriesOf(ms, level), i))
    decreases ms, 1, |ms| - i
  {
    hide Prints, Separator, MembersText, Line, Codes, PrettyMember, TreeOf, NewLine, RenderEntry, MemberBytes,
         EntryOf;
    var es := EntriesOf(ms, level);
    var last := i + 1 == |ms|;
    assert es[i] == EntryOf(ms[i], level, last);
    var t, bs := PrettyMember(ms[i], level + 1), MemberBytes(ms[i], level + 1);
    MemberHasTheText(ms[i], level + 1);
    LinePrints(i, level + 1, t, bs);
    EntryBytes(ms[i], level, last);
    RenderEntriesStep(es, i);
    var before, after: Bytes := Codes(NewLine(level + 1)), if last then Codes(NewLine(level)) else [];
    var rest := Follow(last, 0x7D) + RenderEntries(es, i + 1);
    Regrouped(Separator(i), before, bs, after, rest);
    var line := Line(i, level + 1, t);
    MembersTextStep(ms, i, level);
    if !last {
      EntriesHaveTheText(ms, i + 1, level);
      LaterSeparator(i);
      PrintsTogether(line, Separator(i) + (before + bs), MembersText(ms, i + 1, level), rest);
    } else {
      WordsPrint();
      EndPrints(level, "}", 0x7D);
      NoMoreEntries(es);
      PrintsTogether(line, Separator(i) + (before + bs), NewLine(level) + "}", after + rest);
    }
  }

  // ----- its meaning

  lemma {:induction false} TreeMeansTheValue(v: Value, level: nat)
    requires Ordered(v)
    ensures FromJson(Meaning(TreeOf(v, level))) == Some(v)
    decreases v, 0
  {
    match v
    case VInt(n) => IntegerRoundTrip(n);
    case VString(s) => QuotedIsSpelt(s);
    case VList(items) => ItemsMeanTheValues(items, 0, level);
    case VObject(ms) => EntriesMeanTheMembers(ms, 0, level);
    case _ =>
  }

  lemma {:induction false} ItemsMeanTheValues(items: seq<Value>, i: nat, level: nat)
    requires i <= |items| && forall k | 0 <= k < |items| :: Ordered(items[k])
    ensures FromItems(Meanings(ItemsOf(items, level)), i) == Some(items[i..])
    decreases items, 1, |items| - i
  {
    hide FromJson, TreeOf, Meaning, Ordered;
    if i < |items| {
      var xs := ItemsOf(items, level);
      assert xs[i] == ItemOf(items[i], level, i + 1 == |items|);
      MeaningsAt(xs, i);
      TreeMeansTheValue(items[i], level + 1);
      ItemsMeanTheValues(items, i + 1, level);
      assert [items[i]] + items[i + 1..] == items[i..];
    }
  }

  lemma MemberMeans(m: Member, level: nat, last: bool)
    requires FromJson(Meaning(TreeOf(m.value, level + 1))) == Some(m.value)
    ensures FromKeyed(EntryMeaning(EntryOf(m, level, last))) == Some(m)
  {
    hide FromJson, TreeOf, Meaning;
    QuotedIsSpelt(m.name);
  }

  lemma {:induction false} EntriesMeanTheMembers(ms: seq<Member>, i: nat, level: nat)
    requires i <= |ms| && InNameOrder(ms) && forall k | 0 <= k < |ms| :: OrderedMember(ms[k])
    ensures FromMembers(Members(EntriesOf(ms, level)), i) == Some(ms[i..])
    decreases ms, 1, |ms| - i
  {
    hide FromJson, FromKeyed, TreeOf, EntryMeaning, Ordered, NameLess;
    if i < |ms| {
      var es := EntriesOf(ms, level);
      var last := i + 1 == |ms|;
      assert es[i] == EntryOf(ms[i], level, last);
      assert Members(es)[i] == EntryMeaning(es[i]);
      assert OrderedMember(ms[i]);
      TreeMeansTheValue(ms[i].value, level + 1);
      MemberMeans(ms[i], level, last);
      EntriesMeanTheMembers(ms, i + 1, level);
      assert i + 1 < |ms| ==> NameLess(ms[i].name, ms[i + 1].name);
      assert [ms[i]] + ms[i + 1..] == ms[i..];
    }
  }

  // ----- it is proper: no key twice, nested no deeper than it is long

  lemma {:induction false} ItemIsShorter(items: seq<Value>, i: nat, k: nat, level: nat)
    requires i <= k < |items|
    ensures |PrettyItems(items, i, level)| >= |Pretty(items[k], level)|
    decreases k - i
  {
    hide Pretty, NewLine;
    if i < k { ItemIsShorter(items, i + 1, k, level); }
  }

  lemma {:induction false} MemberIsShorter(ms: seq<Member>, i: nat, k: nat, level: nat)
    requires i <= k < |ms|
    ensures |PrettyMembers(ms, i, level)| >= |Pretty(ms[k].value, level)|
    decreases k - i
  {
    hide Pretty, NewLine, QuotedString;
    if i < k { MemberIsShorter(ms, i + 1, k, level); }
  }

  lemma {:induction false} TreeIsProper(v: Value, level: nat, n: int)
    requires Ordered(v) && n > |Pretty(v, level)|
    ensures Proper(TreeOf(v, level), n)
    decreases v, 0
  {
    hide Pretty, NumberText, Spellings, AllSpelt;
    match v
    case VInt(k) => IntegerIsNumber(k);
    case VString(s) => QuotedIsSpelt(s);
    case VList(items) =>
      forall i | 0 <= i < |items| ensures ProperItem(ItemsOf(items, level)[i], n - 1) {
        InsideList(items, i, level);
        ItemIsProper(items[i], level, i + 1 == |items|, n - 1);
      }
    case VObject(ms) =>
      var es := EntriesOf(ms, level);
      forall i | 0 <= i < |ms| ensures ProperEntry(es[i], n - 1) {
        InsideObject(ms, i, level);
        EntryIsProper(ms[i], level, i + 1 == |ms|, n - 1);
      }
      forall i, j | 0 <= i < j < |es| ensures !SameKey(es[i], es[j]) {
        KeysDiffer(ms, i, j, level);
      }
    case _ =>
  }

  lemma InsideList(items: seq<Value>, i: nat, level: nat)
    requires i < |items|
    ensures |Pretty(items[i], level + 1)| < |Pretty(VList(items), level)|
  {
    ItemIsShorter(items, 0, i, level + 1);
    hide PrettyItems, NewLine;
  }

  lemma InsideObject(ms: seq<Member>, i: nat, level: nat)
    requires i < |ms|
    ensures |Pretty(ms[i].value, level + 1)| < |Pretty(VObject(ms), level)|
  {
    MemberIsShorter(ms, 0, i, level + 1);
    hide PrettyMembers, NewLine;
  }

  lemma {:induction false} ItemIsProper(v: Value, level: nat, last: bool, n: int)
    requires Ordered(v) && n > |Pretty(v, level + 1)|
    ensures ProperItem(ItemOf(v, level, last), n)
    decreases v, 1
  {
    hide TreeOf, Proper, NewLine, Ordered;
    NewLineIsSpace(level);
    NewLineIsSpace(level + 1);
    TreeIsProper(v, level + 1, n);
  }

  lemma {:induction false} EntryIsProper(m: Member, level: nat, last: bool, n: int)
    requires OrderedMember(m) && n > |Pretty(m.value, level + 1)|
    ensures ProperEntry(EntryOf(m, level, last), n)
    decreases m, 1
  {
    hide TreeOf, Proper, NewLine, Ordered, AllSpelt;
    NewLineIsSpace(level);
    NewLineIsSpace(level + 1);
    QuotedIsSpelt(m.name);
    TreeIsProper(m.value, level + 1, n);
  }

  lemma KeysDiffer(ms: seq<Member>, i: nat, j: nat, level: nat)
    requires InNameOrder(ms) && i < j < |ms|
    ensures !SameKey(EntriesOf(ms, level)[i], EntriesOf(ms, level)[j])
  {
    hide TreeOf, NewLine;
    QuotedIsSpelt(ms[i].name);
    QuotedIsSpelt(ms[j].name);
    LexTotal(ScalarsOf(ms[i].name), ScalarsOf(ms[j].name));
  }

  /** Loading printed JSON gives the value back. */
  lemma LoadsPretty(v: Value)
    requires Ordered(v)
    ensures Loads(Pretty(v, 0)) == Some(v)
  {
    hide FromJson, Meaning, TreeOf, Proper, Render, Pretty, Ordered, BytesOf, IsAscii, ParseWithin;
    var s, x := Pretty(v, 0), TreeOf(v, 0);
    TreeHasTheText(v, 0);
    AsciiBytes(s);
    assert |BytesOf(s)| == |s|;
    TreeIsProper(v, 0, |s| + MAX_DEPTH);
    TreeMeansTheValue(v, 0);
    var item := Item([], x, []);
    assert RenderItem(item) == [] + (Render(x) + []) == Render(x);
    ProperTextsParse(item, |s| + MAX_DEPTH);
  }

  // ----- and whatever loads is in order

  lemma NameOrderIsTotal(a: string, b: string)
    ensures NameLess(a, b) || NameLess(b, a) || a == b
  {
    LexTotal(ScalarsOf(a), ScalarsOf(b));
    if ScalarsOf(a) == ScalarsOf(b) {
      TextOfScalars(a);
      TextOfScalars(b);
    }
  }

  lemma {:induction false} InsertKeepsOrder(m: Member, ms: seq<Member>)
    requires InNameOrder(ms) && forall i | 0 <= i < |ms| :: ms[i].name != m.name
    ensures InNameOrder(InsertMember(m, ms))
    ensures forall x :: x in InsertMember(m, ms) <==> x == m || x in ms
  {
    hide NameLess;
    if ms == [] {
    } else if NameLess(m.name, ms[0].name) {
      forall j | 0 <= j < |ms| ensures NameLess(m.name, ms[j].name) {
        if j > 0 { NameOrderIsTransitive(m.name, ms[0].name, ms[j].name); }
      }
    } else {
      NameOrderIsTotal(m.name, ms[0].name);
      InsertKeepsOrder(m, ms[1..]);
      var rest := InsertMember(m, ms[1..]);
      forall j | 0 <= j < |rest| ensures NameLess(ms[0].name, rest[j].name) {
        assert rest[j] in rest;
        if rest[j] != m {
          var k :| 0 <= k < |ms[1..]| && ms[1..][k] == rest[j];
          assert ms[k + 1] == rest[j];
        }
      }
    }
  }

  lemma NameOrderIsTransitive(a: string, b: string, c: string)
    requires NameLess(a, b) && NameLess(b, c)
    ensures NameLess(a, c)
  {
    LexTransitive(ScalarsOf(a), ScalarsOf(b), ScalarsOf(c));
  }

  lemma {:induction false} FromJsonIsOrdered(v: Json, n: int)
    requires Good(v, n) && FromJson(v).Some?
    ensures Ordered(FromJson(v).value)
    decreases v, 0
  {
    match v
    case Array(vs) => FromItemsAreOrdered(vs, 0, n - 1);
    case Object(ms) => FromMembersAreOrdered(ms, 0, n - 1);
    case _ =>
  }

  lemma {:induction false} FromItemsAreOrdered(vs: seq<Json>, i: nat, n: int)
    requires i <= |vs| && FromItems(vs, i).Some? && forall k | 0 <= k < |vs| :: Good(vs[k], n)
    ensures forall k | 0 <= k < |FromItems(vs, i).value| :: Ordered(FromItems(vs, i).value[k])
    decreases vs, 1, |vs| - i
  {
    hide FromJson, Good, Ordered;
    if i < |vs| {
      FromJsonIsOrdered(vs[i], n);
      FromItemsAreOrdered(vs, i + 1, n);
    }
  }

  lemma {:induction false} FromMembersAreOrdered(ms: seq<Keyed<Json>>, i: nat, n: int)
    requires i <= |ms| && FromMembers(ms, i).Some? && DistinctKeys(ms) && forall k | 0 <= k < |ms| :: Good(ms[k].value, n)
    ensures var rest := FromMembers(ms, i).value;
            && InNameOrder(rest) && (forall k | 0 <= k < |rest| :: OrderedMember(rest[k]))
            && forall m | m in rest :: exists k :: i <= k < |ms| && m.name == TextOf(ms[k].key)
    decreases ms, 1, |ms| - i
  {
    hide FromJson, Good, Ordered, InsertMember, NameLess;
    if i < |ms| {
      FromJsonIsOrdered(ms[i].value, n);
      FromMembersAreOrdered(ms, i + 1, n);
      var m, rest := FromKeyed(ms[i]).value, FromMembers(ms, i + 1).value;
      forall j | 0 <= j < |rest| ensures rest[j].name != m.name {
        assert rest[j] in rest;
        var k :| i + 1 <= k < |ms| && rest[j].name == TextOf(ms[k].key);
        if rest[j].name == m.name { SameText(ms[i].key, ms[k].key); }
      }
      InsertKeepsOrder(m, rest);
      var all := InsertMember(m, rest);
      assert FromMembers(ms, i) == Some(all);
      forall k | 0 <= k < |all| ensures OrderedMember(all[k]) {
        assert all[k] in all;
        if all[k] != m { var q :| 0 <= q < |rest| && rest[q] == all[k]; }
      }
    }
  }

  lemma SameText(a: Str, b: Str)
    requires TextOf(a) == TextOf(b)
    ensures a == b
  {
    forall i | 0 <= i < |a| ensures a[i] == b[i] {
      assert TextOf(a)[i] == TextOf(b)[i];
    }
  }

  lemma LoadedIsOrdered(s: string)
    requires Loads(s).Some?
    ensures Ordered(Loads(s).value)
  {
    var bs := BytesOf(s);
    hide Good, FromJson, Ordered;
    FromJsonIsOrdered(ParseWithin(bs, |bs| + MAX_DEPTH).value, |bs| + MAX_DEPTH);
  }
}
