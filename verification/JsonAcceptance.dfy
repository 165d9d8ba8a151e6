/** The parser reads every proper JSON text, and reads what it means. */
module JsonAcceptance {
  import opened Ascii
  import opened Common
  import opened Utf8
  import opened JsonValue
  import opened JsonParser
  import opened JsonSyntax

  // ----- white space

  lemma {:induction false} SkipsSpaces(bs: Bytes, p: nat, t: Bytes)
    requires At(bs, p, t) && Spaces(t) && (p + |t| < |bs| ==> !IsSpace(bs[p + |t|]))
    ensures SkipSpace(bs, p) == p + |t|
    decreases |t|
  {
    if t != [] {
      assert t == [t[0]] + t[1..];
      AtSplit(bs, p, [t[0]], t[1..]);
      AtByte(bs, p, t, 0);
      SkipsSpaces(bs, p + 1, t[1..]);
    }
  }

  // ----- characters and strings

  lemma FourAt(bs: Bytes, p: nat, ds: Bytes)
    requires At(bs, p, ds) && FourHex(ds) && p + 4 <= |bs| && Boundary(bs, p + 4)
    ensures PHex(bs, p) == Got(Hex4(ds, 0), p + 4)
  {
    AtByte(bs, p, ds, 0);
    AtByte(bs, p, ds, 1);
    AtByte(bs, p, ds, 2);
    AtByte(bs, p, ds, 3);
  }

  lemma ReadsPair(bs: Bytes, p: nat, sp: Spelling)
    requires sp.Pair? && WellSpelt(sp) && At(bs, p, Spelt(sp))
    requires p + |Spelt(sp)| < |bs| && !Continuation(bs[p + |Spelt(sp)|])
    ensures PUnicode(bs, p + 2) == Got(Spells(sp), p + 12)
  {
    hide HexValue, Boundary, ValidFrom;
    var u: Bytes := [0x5C, 0x75];
    AtSplit(bs, p, u + sp.high, u + sp.low);
    AtSplit(bs, p, u, sp.high);
    AtSplit(bs, p + 6, u, sp.low);
    AtByte(bs, p + 6, u, 0);
    FourAt(bs, p + 2, sp.high);
    FourAt(bs, p + 8, sp.low);
  }

  lemma ReadsHex(bs: Bytes, p: nat, sp: Spelling)
    requires sp.Hex? && WellSpelt(sp) && At(bs, p, Spelt(sp))
    requires p + |Spelt(sp)| < |bs| && !Continuation(bs[p + |Spelt(sp)|])
    ensures PUnicode(bs, p + 2) == Got(Spells(sp), p + 6)
  {
    AtSplit(bs, p, [0x5C, 0x75], sp.digits);
    FourAt(bs, p + 2, sp.digits);
  }

  lemma ReadsCharacter(bs: Bytes, p: nat, sp: Spelling, acc: Str)
    requires WellSpelt(sp) && At(bs, p, Spelt(sp))
    requires p + |Spelt(sp)| < |bs| && !Continuation(bs[p + |Spelt(sp)|])
    ensures PString(bs, p, acc) == PString(bs, p + |Spelt(sp)|, acc + [Spells(sp)])
  {
    hide ValidFrom, Boundary, PUnicode;
    AtByte(bs, p, Spelt(sp), 0);
    if sp.Raw? {
      DecodeOfEncode(bs, p, sp.c);
    } else {
      AtByte(bs, p, Spelt(sp), 1);
      if sp.Hex? { ReadsHex(bs, p, sp); }
      if sp.Pair? { ReadsPair(bs, p, sp); }
    }
  }

  lemma SpeltStarts(ss: seq<Spelling>)
    requires AllSpelt(ss)
    ensures !Continuation((SpeltAll(ss) + [0x22])[0])
  {
  }

  lemma {:induction false} ReadsString(bs: Bytes, p: nat, ss: seq<Spelling>, acc: Str)
    requires AllSpelt(ss) && At(bs, p, SpeltAll(ss) + [0x22])
    ensures PString(bs, p, acc) == Got(acc + SpellsAll(ss), p + |SpeltAll(ss)| + 1)
    decreases |ss|
  {
    hide At, DecodeAt, ValidFrom, PEscape, Spelt, Spells, WellSpelt;
    if ss == [] {
      assert SpeltAll(ss) + [0x22] == [0x22] && acc + SpellsAll(ss) == acc;
      AtByte(bs, p, [0x22], 0);
    } else {
      FirstSpelling(ss);
      SpeltStarts(ss[1..]);
      hide SpeltAll, SpellsAll, PString;
      var t, rest := Spelt(ss[0]), SpeltAll(ss[1..]) + [0x22];
      AtSplit(bs, p, t, rest);
      AtByte(bs, p + |t|, rest, 0);
      ReadsCharacter(bs, p, ss[0], acc);
      ReadsString(bs, p + |t|, ss[1..], acc + [Spells(ss[0])]);
      assert acc + [Spells(ss[0])] + SpellsAll(ss[1..]) == acc + ([Spells(ss[0])] + SpellsAll(ss[1..]));
    }
  }

  lemma ReadsQuoted(bs: Bytes, p: nat, ss: seq<Spelling>)
    requires AllSpelt(ss) && At(bs, p, QuotedText(ss))
    ensures p < |bs| && bs[p] == 0x22
    ensures PString(bs, p + 1, []) == Got(SpellsAll(ss), p + |QuotedText(ss)|)
  {
    assert QuotedText(ss) == [0x22] + (SpeltAll(ss) + [0x22]);
    AtSplit(bs, p, [0x22], SpeltAll(ss) + [0x22]);
    AtByte(bs, p, [0x22], 0);
    ReadsString(bs, p + 1, ss, []);
    assert [] + SpellsAll(ss) == SpellsAll(ss);
  }

  // ----- numbers

  lemma {:induction false} SkipsDigits(bs: Bytes, p: nat, t: Bytes)
    requires At(bs, p, t) && AllDigits(t) && (p + |t| < |bs| ==> !IsDigit(bs[p + |t|]))
    ensures SkipDigits(bs, p) == p + |t|
    decreases |t|
  {
    if t != [] {
      assert t == [t[0]] + t[1..];
      AtSplit(bs, p, [t[0]], t[1..]);
      AtByte(bs, p, t, 0);
      SkipsDigits(bs, p + 1, t[1..]);
    }
  }

  /** What may follow a value. */
  predicate Stops(bs: Bytes, p: nat) {
    p < |bs| ==> IsSpace(bs[p]) || bs[p] == 0x2C || bs[p] == 0x5D || bs[p] == 0x7D
  }

  lemma ReadsExponent(bs: Bytes, p: nat, e: Bytes)
    requires At(bs, p, e) && ExponentPart(e) && Stops(bs, p + |e|)
    ensures PExponent(bs, p) == Got((), p + |e|)
  {
    if e != [] {
      AtByte(bs, p, e, 0);
      AtByte(bs, p, e, 1);
      hide SkipDigits;
      var s := if e[1] == 0x2B || e[1] == 0x2D then 2 else 1;
      DigitsEnd(bs, p, e, s);
    }
  }

  /** Digits that close a token are skipped to its end. */
  lemma DigitsEnd(bs: Bytes, p: nat, t: Bytes, s: nat)
    requires At(bs, p, t) && s <= |t| && AllDigits(t[s..]) && (p + |t| < |bs| ==> !IsDigit(bs[p + |t|]))
    ensures p + |t| <= |bs| && SkipDigits(bs, p + s) == p + |t|
  {
    Cut(bs, p, t);
    hide At;
    assert t == t[..s] + t[s..];
    AtSplit(bs, p, t[..s], t[s..]);
    SkipsDigits(bs, p + s, t[s..]);
  }

  lemma ReadsFraction(bs: Bytes, p: nat, f: Bytes)
    requires At(bs, p, f) && FractionPart(f)
    requires p + |f| < |bs| ==> !IsDigit(bs[p + |f|]) && bs[p + |f|] != 0x2E
    ensures PFraction(bs, p) == Got((), p + |f|)
  {
    if f != [] {
      AtByte(bs, p, f, 0);
      hide SkipDigits;
      DigitsEnd(bs, p, f, 1);
    }
  }

  lemma ReadsInteger(bs: Bytes, p: nat, i: Bytes)
    requires At(bs, p, i) && IntegerPart(i) && (p + |i| < |bs| ==> !IsDigit(bs[p + |i|]))
    ensures PInteger(bs, p) == Got((), p + |i|) && IsDigit(bs[p])
  {
    AtByte(bs, p, i, 0);
    hide SkipDigits;
    DigitsEnd(bs, p, i, 1);
  }

  lemma PartStarts(bs: Bytes, p: nat, t: Bytes)
    requires At(bs, p, t) && Stops(bs, p + |t|) && (FractionPart(t) || ExponentPart(t))
    ensures p < |bs| ==> !IsDigit(bs[p])
    ensures ExponentPart(t) && p < |bs| ==> bs[p] != 0x2E
  {
    if t != [] { AtByte(bs, p, t, 0); }
  }

  /** The three parts after the sign. */
  lemma ReadsThree(bs: Bytes, q: nat, i: Bytes, f: Bytes, e: Bytes)
    requires IntegerPart(i) && FractionPart(f) && ExponentPart(e) && Stops(bs, q + |i| + |f| + |e|)
    requires At(bs, q, i) && At(bs, q + |i|, f) && At(bs, q + |i| + |f|, e)
    ensures PInteger(bs, q) == Got((), q + |i|) && IsDigit(bs[q])
    ensures PFraction(bs, q + |i|) == Got((), q + |i| + |f|)
    ensures PExponent(bs, q + |i| + |f|) == Got((), q + |i| + |f| + |e|)
  {
    hide At, PInteger, PFraction, PExponent, ExponentPart, FractionPart;
    ReadsExponent(bs, q + |i| + |f|, e);
    PartStarts(bs, q + |i| + |f|, e);
    FractionStarts(bs, q + |i|, f);
    ReadsFraction(bs, q + |i|, f);
    ReadsInteger(bs, q, i);
  }

  lemma ReadsParts(bs: Bytes, p: nat, minus: Bytes, i: Bytes, f: Bytes, e: Bytes)
    requires NumberOf(minus, i, f, e) && At(bs, p, minus + i + f + e) && Stops(bs, p + |minus + i + f + e|)
    ensures PNumber(bs, p) == Got(Number(minus + i + f + e), p + |minus + i + f + e|)
    ensures bs[p] == 0x2D || IsDigit(bs[p])
  {
    hide At, PInteger, PFraction, PExponent, AfterMinus, NumberText, ExponentPart, FractionPart, IntegerPart, Stops;
    AtSplit(bs, p, minus + i + f, e);
    AtSplit(bs, p, minus + i, f);
    AtSplit(bs, p, minus, i);
    Cut(bs, p, minus + i + f + e);
    ReadsThree(bs, p + |minus|, i, f, e);
    SkipsMinus(bs, p, minus);
  }

  lemma SkipsMinus(bs: Bytes, p: nat, minus: Bytes)
    requires (minus == [] || minus == [0x2D]) && At(bs, p, minus)
    requires p + |minus| < |bs| && bs[p + |minus|] != 0x2D
    ensures AfterMinus(bs, p) == p + |minus| && (minus != [] ==> bs[p] == 0x2D)
  {
    if minus != [] { AtByte(bs, p, minus, 0); }
  }

  lemma FractionStarts(bs: Bytes, p: nat, f: Bytes)
    requires At(bs, p, f) && FractionPart(f) && (p + |f| < |bs| ==> !IsDigit(bs[p + |f|]))
    ensures p < |bs| ==> !IsDigit(bs[p])
  {
    if f != [] { AtByte(bs, p, f, 0); }
  }

  lemma ReadsNumber(bs: Bytes, p: nat, t: Bytes)
    requires NumberText(t) && At(bs, p, t) && Stops(bs, p + |t|)
    ensures p < |bs| && (bs[p] == 0x2D || IsDigit(bs[p]))
    ensures PNumber(bs, p) == Got(Number(t), p + |t|)
  {
    var minus: Bytes, i: Bytes, f: Bytes, e: Bytes :| NumberOf(minus, i, f, e) && t == minus + i + f + e;
    ReadsParts(bs, p, minus, i, f, e);
  }

  // ----- values

  /** The first byte of a value decides which kind it is. */
  lemma ValueStarts(bs: Bytes, p: nat, x: Syntax, n: int)
    requires Proper(x, n) && At(bs, p, Render(x)) && Stops(bs, p + |Render(x)|)
    ensures p < |bs| && !IsSpace(bs[p]) && bs[p] != 0x5D && bs[p] != 0x7D
  {
    if x.Digits? {
      ReadsNumber(bs, p, x.text);
    } else {
      AtByte(bs, p, Render(x), 0);
    }
  }

  lemma ReadsWord(bs: Bytes, p: nat, v: Json, depth: int)
    requires (v == Null || v.Bool?) && At(bs, p, WordText(v)) && depth <= MAX_DEPTH
    ensures PInner(bs, p, depth) == Got(v, p + |WordText(v)|)
  {
    AtByte(bs, p, WordText(v), 0);
  }

  lemma ReadsDigits(bs: Bytes, p: nat, t: Bytes, depth: int)
    requires NumberText(t) && At(bs, p, t) && Stops(bs, p + |t|) && depth <= MAX_DEPTH
    ensures PInner(bs, p, depth) == Got(Number(t), p + |t|)
  {
    hide PNumber;
    ReadsNumber(bs, p, t);
  }

  lemma ReadsQuote(bs: Bytes, p: nat, ss: seq<Spelling>, depth: int)
    requires AllSpelt(ss) && At(bs, p, QuotedText(ss)) && depth <= MAX_DEPTH
    ensures PInner(bs, p, depth) == Got(String(SpellsAll(ss)), p + |QuotedText(ss)|)
  {
    hide PString;
    ReadsQuoted(bs, p, ss);
  }

  lemma {:induction false} Reads(bs: Bytes, p: nat, x: Syntax, n: int, depth: int)
    requires Proper(x, n) && At(bs, p, Render(x)) && Stops(bs, p + |Render(x)|)
    requires depth - 1 + n <= MAX_DEPTH
    ensures PInner(bs, p, depth) == Got(Meaning(x), p + |Render(x)|)
    decreases x, 2
  {
    hide PInner, NumberText, AllSpelt, At;
    match x
    case Word(v) => ReadsWord(bs, p, v, depth);
    case Digits(t) => ReadsDigits(bs, p, t, depth);
    case Quote(ss) => ReadsQuote(bs, p, ss, depth);
    case List(items, gap) => ReadsList(bs, p, items, gap, n, depth);
    case Dict(es, gap) => ReadsDict(bs, p, es, gap, n, depth);
  }

  lemma {:induction false} ReadsItem(bs: Bytes, p: nat, item: Item, n: int, depth: int) returns (m: nat)
    requires ProperItem(item, n) && At(bs, p, RenderItem(item)) && depth + n <= MAX_DEPTH
    requires var q := p + |RenderItem(item)|; q < |bs| ==> bs[q] == 0x2C || bs[q] == 0x5D || bs[q] == 0x7D
    ensures PValue(bs, p, depth) == Got(Meaning(item.syntax), m)
    ensures m <= |bs| && SkipSpace(bs, m) == p + |RenderItem(item)|
    ensures SkipSpace(bs, p) < |bs| && bs[SkipSpace(bs, p)] != 0x5D
    ensures PValue(bs, SkipSpace(bs, p), depth) == PValue(bs, p, depth)
    decreases item
  {
    hide At, Proper, Render, PInner, Meaning;
    var text := Render(item.syntax);
    AtSplit(bs, p, item.before, text + item.after);
    var s := p + |item.before|;
    AtSplit(bs, s, text, item.after);
    m := s + |text|;
    AfterValue(bs, m, item.after);
    ValueStarts(bs, s, item.syntax, n);
    SkipsSpaces(bs, p, item.before);
    SkipsSpaces(bs, s, []) by { AtNothing(bs, s); }
    ProperIsDeep(item.syntax, n);
    Reads(bs, s, item.syntax, n, depth + 1);
  }

  lemma ProperIsDeep(x: Syntax, n: int)
    requires Proper(x, n)
    ensures n > 0
  {
  }

  lemma AtNothing(bs: Bytes, p: nat)
    requires p <= |bs|
    ensures At(bs, p, [])
  {
  }

  lemma AfterValue(bs: Bytes, m: nat, after: Bytes)
    requires At(bs, m, after) && Spaces(after)
    requires var q := m + |after|; q < |bs| ==> bs[q] == 0x2C || bs[q] == 0x5D || bs[q] == 0x7D
    ensures Stops(bs, m) && m <= |bs| && SkipSpace(bs, m) == m + |after|
  {
    if after != [] { AtByte(bs, m, after, 0); }
    SkipsSpaces(bs, m, after);
  }

  lemma ReadsEmptyList(bs: Bytes, p: nat, gap: Bytes, n: int, depth: int)
    requires Spaces(gap) && At(bs, p, Render(List([], gap))) && depth <= MAX_DEPTH
    ensures PInner(bs, p, depth) == Got(Meaning(List([], gap)), p + |Render(List([], gap))|)
  {
    hide At, PItems, PString, PNumber, PLiteral, ValidFrom;
    assert Render(List([], gap)) == [0x5B] + (gap + [0x5D]);
    AtSplit(bs, p, [0x5B], gap + [0x5D]);
    AtSplit(bs, p + 1, gap, [0x5D]);
    AtByte(bs, p, [0x5B], 0);
    AtByte(bs, p + 1 + |gap|, [0x5D], 0);
    SkipsSpaces(bs, p + 1, gap);
  }

  lemma {:induction false} ReadsList(bs: Bytes, p: nat, items: seq<Item>, gap: Bytes, n: int, depth: int)
    requires Proper(List(items, gap), n) && At(bs, p, Render(List(items, gap)))
    requires depth - 1 + n <= MAX_DEPTH
    ensures PInner(bs, p, depth) == Got(Meaning(List(items, gap)), p + |Render(List(items, gap))|)
    decreases items, 1
  {
    hide PString, PNumber, PLiteral, ValidFrom, PItems, RenderItems, Meanings, DecodeAt, ProperItem, SameKey, At;
    var rest := RenderItems(items, 0);
    AtSplit(bs, p, [0x5B], gap + rest);
    AtSplit(bs, p + 1, gap, rest);
    AtByte(bs, p, [0x5B], 0);
    if items == [] {
      ReadsEmptyList(bs, p, gap, n, depth);
    } else {
      ReadsItems(bs, p + 1, items, 0, n - 1, depth, []);
      assert [] + Meanings(items)[0..] == Meanings(items);
    }
  }

  lemma {:induction false} ReadsItems(bs: Bytes, p: nat, items: seq<Item>, i: nat, n: int, depth: int, acc: seq<Json>)
    requires i < |items| && (forall k | 0 <= k < |items| :: ProperItem(items[k], n)) && depth + n <= MAX_DEPTH && depth <= MAX_DEPTH
    requires At(bs, p, RenderItems(items, i))
    ensures PItems(bs, p, depth, acc) == Got(Array(acc + Meanings(items)[i..]), p + |RenderItems(items, i)|)
    ensures PItems(bs, SkipSpace(bs, p), depth, acc) == PItems(bs, p, depth, acc)
    ensures SkipSpace(bs, p) < |bs| && bs[SkipSpace(bs, p)] != 0x5D
    decreases items, 0, |items| - i
  {
    hide ValidFrom, Good, SkipSpace, At, PValue, RenderItem, Meaning, ProperItem;
    var item := items[i];
    var text, comma, rest := RenderItem(item), Follow(i + 1 == |items|, 0x5D), RenderItems(items, i + 1);
    AtSplit(bs, p, text, comma + rest);
    AtSplit(bs, p + |text|, comma, rest);
    AtByte(bs, p + |text|, comma, 0);
    var m := ReadsItem(bs, p, item, n, depth);
    var v := Meaning(item.syntax);
    MeaningsAt(items, i);
    hide Meanings;
    assert acc + [v] + Meanings(items)[i + 1..] == acc + Meanings(items)[i..];
    if i + 1 < |items| {
      ReadsItems(bs, p + |text| + 1, items, i + 1, n, depth, acc + [v]);
    } else {
      assert rest == [] && comma == [0x5D] && bs[p + |text|] == 0x5D;
      assert acc + [v] == acc + Meanings(items)[i..];
      assert PItems(bs, p, depth, acc) == Got(Array(acc + [v]), p + |text| + 1);
    }
  }

  lemma ReadsEmptyDict(bs: Bytes, p: nat, gap: Bytes, n: int, depth: int)
    requires Spaces(gap) && At(bs, p, Render(Dict([], gap))) && depth <= MAX_DEPTH
    ensures PInner(bs, p, depth) == Got(Meaning(Dict([], gap)), p + |Render(Dict([], gap))|)
  {
    hide At, PMembers, PString, PNumber, PLiteral, ValidFrom;
    assert Render(Dict([], gap)) == [0x7B] + (gap + [0x7D]);
    AtSplit(bs, p, [0x7B], gap + [0x7D]);
    AtSplit(bs, p + 1, gap, [0x7D]);
    AtByte(bs, p, [0x7B], 0);
    AtByte(bs, p + 1 + |gap|, [0x7D], 0);
    SkipsSpaces(bs, p + 1, gap);
  }

  lemma {:induction false} ReadsDict(bs: Bytes, p: nat, es: seq<Entry>, gap: Bytes, n: int, depth: int)
    requires Proper(Dict(es, gap), n) && At(bs, p, Render(Dict(es, gap)))
    requires depth - 1 + n <= MAX_DEPTH
    ensures PInner(bs, p, depth) == Got(Meaning(Dict(es, gap)), p + |Render(Dict(es, gap))|)
    decreases es, 1
  {
    hide PString, PNumber, PLiteral, ValidFrom, PMembers, RenderEntries, Members, DecodeAt, ProperEntry, SameKey, At;
    var rest := RenderEntries(es, 0);
    AtSplit(bs, p, [0x7B], gap + rest);
    AtSplit(bs, p + 1, gap, rest);
    AtByte(bs, p, [0x7B], 0);
    if es == [] {
      ReadsEmptyDict(bs, p, gap, n, depth);
    } else {
      assert Members(es)[..0] == [];
      ReadsEntries(bs, p + 1, es, 0, n - 1, depth);
    }
  }

  lemma KeyIsNew(es: seq<Entry>, i: nat)
    requires i < |es| && forall k, j | 0 <= k < j < |es| :: !SameKey(es[k], es[j])
    ensures !HasKey(Members(es)[..i], SpellsAll(es[i].key))
  {
    hide Meaning;
    forall k | 0 <= k < i ensures Members(es)[..i][k].key != SpellsAll(es[i].key) {
      MembersAt(es, k);
      assert !SameKey(es[k], es[i]);
    }
  }

  lemma ReadsKey(bs: Bytes, p: nat, e: Entry, acc: seq<Keyed<Json>>)
    requires Spaces(e.before) && AllSpelt(e.key) && Spaces(e.between) && !HasKey(acc, SpellsAll(e.key))
    requires At(bs, p, e.before + (QuotedText(e.key) + (e.between + [0x3A])))
    ensures PKey(bs, p, acc) == Got(SpellsAll(e.key), p + |e.before + (QuotedText(e.key) + (e.between + [0x3A]))|)
    ensures PKey(bs, SkipSpace(bs, p), acc) == PKey(bs, p, acc)
    ensures SkipSpace(bs, p) < |bs| && bs[SkipSpace(bs, p)] != 0x7D
  {
    hide SkipSpace, Spaces, ValidFrom, DecodeAt, At, HasKey, QuotedText, SpellsAll, AllSpelt, PString;
    var q := p + |e.before|;
    AtSplit(bs, p, e.before, QuotedText(e.key) + (e.between + [0x3A]));
    AtSplit(bs, q, QuotedText(e.key), e.between + [0x3A]);
    var k := q + |QuotedText(e.key)|;
    AtSplit(bs, k, e.between, [0x3A]);
    AtByte(bs, k + |e.between|, [0x3A], 0);
    ReadsQuoted(bs, q, e.key);
    SkipsSpaces(bs, p, e.before);
    SkipsSpaces(bs, q, []) by { AtNothing(bs, q); }
    SkipsSpaces(bs, k, e.between);
  }

  lemma {:induction false} ReadsEntry(bs: Bytes, p: nat, e: Entry, n: int, depth: int, acc: seq<Keyed<Json>>) returns (m: nat)
    requires ProperEntry(e, n) && At(bs, p, RenderEntry(e)) && depth + n <= MAX_DEPTH && !HasKey(acc, SpellsAll(e.key))
    requires var q := p + |RenderEntry(e)|; q < |bs| ==> bs[q] == 0x2C || bs[q] == 0x5D || bs[q] == 0x7D
    ensures PMember(bs, p, depth, acc) == Got(Keyed(SpellsAll(e.key), Meaning(e.item.syntax)), m)
    ensures m <= |bs| && SkipSpace(bs, m) == p + |RenderEntry(e)|
    ensures PMember(bs, SkipSpace(bs, p), depth, acc) == PMember(bs, p, depth, acc)
    ensures SkipSpace(bs, p) < |bs| && bs[SkipSpace(bs, p)] != 0x7D
    decreases e
  {
    hide At, HasKey, QuotedText, SpellsAll, PKey, PValue, RenderItem, Meaning, ProperItem;
    var head := e.before + (QuotedText(e.key) + (e.between + [0x3A]));
    var text := RenderItem(e.item);
    assert RenderEntry(e) == head + text;
    AtSplit(bs, p, head, text);
    ReadsKey(bs, p, e, acc);
    m := ReadsItem(bs, p + |head|, e.item, n, depth);
  }

  /** One turn of the members loop: an entry and the byte after it. */
  lemma {:induction false} ReadsOneEntry(bs: Bytes, p: nat, es: seq<Entry>, i: nat, n: int, depth: int)
    requires i < |es| && (forall k | 0 <= k < |es| :: ProperEntry(es[k], n)) && depth + n <= MAX_DEPTH && depth <= MAX_DEPTH
    requires forall k, j | 0 <= k < j < |es| :: !SameKey(es[k], es[j])
    requires At(bs, p, RenderEntry(es[i])) && p + |RenderEntry(es[i])| < |bs|
    requires bs[p + |RenderEntry(es[i])|] == 0x2C || bs[p + |RenderEntry(es[i])|] == 0x7D
    ensures var q := p + |RenderEntry(es[i])|;
            PMembers(bs, p, depth, Members(es)[..i])
            == if bs[q] == 0x2C then PMembers(bs, q + 1, depth, Members(es)[..i + 1])
               else Got(Object(Members(es)[..i + 1]), q + 1)
    ensures PMembers(bs, SkipSpace(bs, p), depth, Members(es)[..i]) == PMembers(bs, p, depth, Members(es)[..i])
    ensures SkipSpace(bs, p) < |bs| && bs[SkipSpace(bs, p)] != 0x7D
    decreases es, 0, |es| - i, 0
  {
    hide At, PMember, RenderEntry, ProperEntry, SameKey, Members, HasKey, SkipSpace, Good, ValidFrom, DistinctKeys,
         SpellsAll, Meaning;
    KeyIsNew(es, i);
    var m := ReadsEntry(bs, p, es[i], n, depth, Members(es)[..i]);
    MembersAt(es, i);
    assert Members(es)[..i] + [Members(es)[i]] == Members(es)[..i + 1];
  }

  lemma {:induction false} ReadsEntries(bs: Bytes, p: nat, es: seq<Entry>, i: nat, n: int, depth: int)
    requires i < |es| && (forall k | 0 <= k < |es| :: ProperEntry(es[k], n)) && depth + n <= MAX_DEPTH && depth <= MAX_DEPTH
    requires forall k, j | 0 <= k < j < |es| :: !SameKey(es[k], es[j])
    requires At(bs, p, RenderEntries(es, i))
    ensures PMembers(bs, p, depth, Members(es)[..i]) == Got(Object(Members(es)), p + |RenderEntries(es, i)|)
    ensures PMembers(bs, SkipSpace(bs, p), depth, Members(es)[..i]) == PMembers(bs, p, depth, Members(es)[..i])
    ensures SkipSpace(bs, p) < |bs| && bs[SkipSpace(bs, p)] != 0x7D
    decreases es, 0, |es| - i, 1
  {
    hide At, PMembers, RenderEntry, ProperEntry, SameKey, Members;
    var text, comma, rest := RenderEntry(es[i]), Follow(i + 1 == |es|, 0x7D), RenderEntries(es, i + 1);
    AtSplit(bs, p, text, comma + rest);
    AtSplit(bs, p + |text|, comma, rest);
    AtByte(bs, p + |text|, comma, 0);
    ReadsOneEntry(bs, p, es, i, n, depth);
    if i + 1 < |es| {
      ReadsEntries(bs, p + |text| + 1, es, i + 1, n, depth);
    } else {
      assert rest == [] && Members(es)[..i + 1] == Members(es);
    }
  }

  /** Every proper text nested at most `limit` deep is accepted, with its meaning. */
  lemma ProperTextsParse(item: Item, limit: nat)
    requires ProperItem(item, limit)
    ensures ParseWithin(RenderItem(item), limit) == Ok(Meaning(item.syntax))
  {
    hide ProperItem, RenderItem;
    var bs := RenderItem(item);
    assert At(bs, 0, bs);
    var m := ReadsItem(bs, 0, item, limit, MAX_DEPTH - limit);
  }
}
