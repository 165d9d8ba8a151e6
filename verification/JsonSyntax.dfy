/** JSON texts as syntax trees: every choice RFC 8259 leaves to the writer (white space, the
    spelling of each character, the text of each number) written out. The parser accepts
    exactly the texts of these trees and returns what they mean. */
module JsonSyntax {
  import opened Ascii
  import opened Common
  import opened Utf8
  import opened JsonValue
  import opened JsonPrinter
  import opened JsonParser

  // ----- strings

  /** How one character of a string is written. */
  datatype Spelling =
    | Raw(c: Scalar)
    | Short(letter: Byte)
    | Hex(digits: Bytes)
    | Pair(high: Bytes, low: Bytes)

  predicate FourHex(ds: Bytes) {
    |ds| == 4 && IsHex(ds[0]) && IsHex(ds[1]) && IsHex(ds[2]) && IsHex(ds[3])
  }

  /** The characters a short escape can stand for. */
  function ShortMeaning(letter: Byte): Option<Scalar> {
    match letter
    case 0x22 => Some(0x22)
    case 0x5C => Some(0x5C)
    case 0x2F => Some(0x2F)
    case 0x62 => Some(0x08)
    case 0x66 => Some(0x0C)
    case 0x6E => Some(0x0A)
    case 0x72 => Some(0x0D)
    case 0x74 => Some(0x09)
    case _ => None
  }

  predicate WellSpelt(sp: Spelling) {
    match sp
    case Raw(c) => c >= 0x20 && c != 0x22 && c != 0x5C
    case Short(letter) => ShortMeaning(letter).Some?
    case Hex(ds) => FourHex(ds) && !(0xD800 <= Hex4(ds, 0) < 0xE000)
    case Pair(high, low) =>
      FourHex(high) && FourHex(low) && 0xD800 <= Hex4(high, 0) < 0xDC00 && 0xDC00 <= Hex4(low, 0) < 0xE000
  }

  function Spelt(sp: Spelling): (bs: Bytes)
    ensures WellSpelt(sp) ==> bs != [] && !Continuation(bs[0])
  {
    match sp
    case Raw(c) => Encode(c)
    case Short(letter) => [0x5C, letter]
    case Hex(ds) => [0x5C, 0x75] + ds
    case Pair(high, low) => [0x5C, 0x75] + high + ([0x5C, 0x75] + low)
  }

  /** The character whose UTF-16 form is the given surrogate pair. */
  function FromPair(high: nat, low: nat): (c: Scalar)
    requires 0xD800 <= high < 0xDC00 && 0xDC00 <= low < 0xE000
    ensures c >= 0x10000 && Units(c) == [high, low]
  {
    0x10000 + (high - 0xD800) * 1024 + (low - 0xDC00)
  }

  /** The character a spelling stands for; a pair stands for the character whose UTF-16 form
      it spells. */
  function Spells(sp: Spelling): (c: Scalar)
    ensures WellSpelt(sp) && sp.Pair? ==> Units(c) == [Hex4(sp.high, 0), Hex4(sp.low, 0)]
    ensures WellSpelt(sp) && sp.Hex? ==> Units(c) == [Hex4(sp.digits, 0)]
  {
    if !WellSpelt(sp) then 0
    else match sp
    case Raw(c) => c
    case Short(letter) => ShortMeaning(letter).value
    case Hex(ds) => Hex4(ds, 0)
    case Pair(high, low) => FromPair(Hex4(high, 0), Hex4(low, 0))
  }

  predicate AllSpelt(ss: seq<Spelling>) {
    forall i | 0 <= i < |ss| :: WellSpelt(ss[i])
  }

  function SpeltAll(ss: seq<Spelling>): Bytes {
    if ss == [] then [] else Spelt(ss[0]) + SpeltAll(ss[1..])
  }

  function SpellsAll(ss: seq<Spelling>): Str {
    seq(|ss|, i requires 0 <= i < |ss| => Spells(ss[i]))
  }

  lemma FirstSpelling(ss: seq<Spelling>)
    requires ss != []
    ensures SpeltAll(ss) + [0x22] == Spelt(ss[0]) + (SpeltAll(ss[1..]) + [0x22])
    ensures SpellsAll(ss) == [Spells(ss[0])] + SpellsAll(ss[1..])
  {
    hide Spelt, Spells, WellSpelt;
    assert SpeltAll(ss) == Spelt(ss[0]) + SpeltAll(ss[1..]);
  }

  function QuotedText(ss: seq<Spelling>): Bytes {
    [0x22] + SpeltAll(ss) + [0x22]
  }

  // ----- values

  datatype Syntax =
    | Word(value: Json)
    | Digits(text: Bytes)
    | Quote(spelling: seq<Spelling>)
    | List(items: seq<Item>, gap: Bytes)
    | Dict(entries: seq<Entry>, gap: Bytes)

  /** A value with the white space around it. */
  datatype Item = Item(before: Bytes, syntax: Syntax, after: Bytes)

  datatype Entry = Entry(before: Bytes, key: seq<Spelling>, between: Bytes, item: Item)

  /** Spaces, tabs, line feeds, form feeds and carriage returns. */
  predicate Spaces(t: Bytes) {
    forall i | 0 <= i < |t| :: t[i] == 0x20 || t[i] == 0x09 || t[i] == 0x0A || t[i] == 0x0C || t[i] == 0x0D
  }

  function WordText(v: Json): Bytes {
    if v == Null then NULL else if v == Bool(true) then TRUE else if v == Bool(false) then FALSE else []
  }

  function Render(x: Syntax): Bytes
    decreases x
  {
    match x
    case Word(v) => WordText(v)
    case Digits(t) => t
    case Quote(ss) => QuotedText(ss)
    case List(items, gap) => [0x5B] + (gap + RenderItems(items, 0))
    case Dict(entries, gap) => [0x7B] + (gap + RenderEntries(entries, 0))
  }

  function RenderItem(item: Item): Bytes
    decreases item
  {
    item.before + (Render(item.syntax) + item.after)
  }

  function Follow(last: bool, close: Byte): Bytes {
    if last then [close] else [0x2C]
  }

  /** The items from `i` on, each followed by its comma or the closing bracket. */
  function RenderItems(items: seq<Item>, i: nat): Bytes
    requires i <= |items|
    decreases items, |items| - i
  {
    if i == |items| then if i == 0 then [0x5D] else []
    else RenderItem(items[i]) + (Follow(i + 1 == |items|, 0x5D) + RenderItems(items, i + 1))
  }

  function RenderEntry(e: Entry): Bytes
    decreases e
  {
    e.before + (QuotedText(e.key) + (e.between + ([0x3A] + RenderItem(e.item))))
  }

  function RenderEntries(es: seq<Entry>, i: nat): Bytes
    requires i <= |es|
    decreases es, |es| - i
  {
    if i == |es| then if i == 0 then [0x7D] else []
    else RenderEntry(es[i]) + (Follow(i + 1 == |es|, 0x7D) + RenderEntries(es, i + 1))
  }

  predicate SameKey(d: Entry, e: Entry) {
    SpellsAll(d.key) == SpellsAll(e.key)
  }

  /** Nested at most `n` deep, white space, numbers and strings as RFC 8259 has them (and the
      form feed as white space), no key twice in one object. */
  ghost predicate Proper(x: Syntax, n: int)
    decreases x
  {
    n > 0 &&
    match x
    case Word(v) => v == Null || v.Bool?
    case Digits(t) => NumberText(t)
    case Quote(ss) => AllSpelt(ss)
    case List(items, gap) =>
      Spaces(gap) && (items != [] ==> gap == []) && forall i | 0 <= i < |items| :: ProperItem(items[i], n - 1)
    case Dict(es, gap) =>
      && Spaces(gap) && (es != [] ==> gap == [])
      && (forall i | 0 <= i < |es| :: ProperEntry(es[i], n - 1))
      && forall i, j | 0 <= i < j < |es| :: !SameKey(es[i], es[j])
  }

  ghost predicate ProperItem(item: Item, n: int)
    decreases item
  {
    Spaces(item.before) && Spaces(item.after) && Proper(item.syntax, n)
  }

  ghost predicate ProperEntry(e: Entry, n: int)
    decreases e
  {
    Spaces(e.before) && AllSpelt(e.key) && Spaces(e.between) && ProperItem(e.item, n)
  }

  function Meaning(x: Syntax): Json
    decreases x
  {
    match x
    case Word(v) => v
    case Digits(t) => Number(t)
    case Quote(ss) => String(SpellsAll(ss))
    case List(items, _) => Array(Meanings(items))
    case Dict(es, _) => Object(Members(es))
  }

  function ItemMeaning(item: Item): Json
    decreases item
  {
    Meaning(item.syntax)
  }

  function EntryMeaning(e: Entry): Keyed<Json>
    decreases e
  {
    Keyed(SpellsAll(e.key), ItemMeaning(e.item))
  }

  function Meanings(items: seq<Item>): (vs: seq<Json>)
    ensures |vs| == |items|
    decreases items
  {
    seq(|items|, i requires 0 <= i < |items| => ItemMeaning(items[i]))
  }

  function Members(es: seq<Entry>): (ms: seq<Keyed<Json>>)
    ensures |ms| == |es|
    decreases es
  {
    seq(|es|, i requires 0 <= i < |es| => EntryMeaning(es[i]))
  }

  lemma RenderItemsStep(items: seq<Item>, i: nat)
    requires i < |items|
    ensures RenderItems(items, i)
            == RenderItem(items[i]) + (Follow(i + 1 == |items|, 0x5D) + RenderItems(items, i + 1))
  {
  }

  lemma RenderEntriesStep(es: seq<Entry>, i: nat)
    requires i < |es|
    ensures RenderEntries(es, i)
            == RenderEntry(es[i]) + (Follow(i + 1 == |es|, 0x7D) + RenderEntries(es, i + 1))
  {
  }

  lemma NoMoreItems(items: seq<Item>)
    requires items != []
    ensures RenderItems(items, |items|) == []
  {
  }

  lemma NoMoreEntries(es: seq<Entry>)
    requires es != []
    ensures RenderEntries(es, |es|) == []
  {
  }

  lemma MeaningsAt(items: seq<Item>, i: nat)
    requires i < |items|
    ensures Meanings(items)[i] == Meaning(items[i].syntax)
  {
    assert Meanings(items)[i] == ItemMeaning(items[i]);
  }

  lemma MembersAt(es: seq<Entry>, i: nat)
    requires i < |es|
    ensures Members(es)[i] == Keyed(SpellsAll(es[i].key), Meaning(es[i].item.syntax))
  {
    assert Members(es)[i] == EntryMeaning(es[i]);
  }
}
