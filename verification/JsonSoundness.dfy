/** The parser reads nothing but proper JSON texts: whatever it accepts is the text of a syntax
    tree that means the value it returned. With JsonAcceptance this makes it exact. */
module JsonSoundness {
  import opened Ascii
  import opened Common
  import opened Utf8
  import opened JsonValue
  import opened JsonParser
  import opened JsonSyntax
  import opened JsonAcceptance

  lemma {:induction false} SkippedAreSpaces(bs: Bytes, p: nat) returns (t: Bytes)
    requires p <= |bs|
    ensures Spaces(t) && At(bs, p, t) && SkipSpace(bs, p) == p + |t|
    decreases |bs| - p
  {
    if p < |bs| && IsSpace(bs[p]) {
      var rest := SkippedAreSpaces(bs, p + 1);
      t := [bs[p]] + rest;
      AtSplit(bs, p, [bs[p]], rest);
    } else {
      t := [];
    }
  }

  lemma SkippingTwice(bs: Bytes, p: nat)
    requires p <= |bs|
    ensures SkipSpace(bs, SkipSpace(bs, p)) == SkipSpace(bs, p)
  {
  }

  lemma LeadingSpaceInList(bs: Bytes, p: nat, depth: nat, acc: seq<Json>)
    requires p <= |bs| && depth <= MAX_DEPTH
    ensures PItems(bs, SkipSpace(bs, p), depth, acc) == PItems(bs, p, depth, acc)
  {
    hide PInner;
    SkippingTwice(bs, p);
    assert PValue(bs, SkipSpace(bs, p), depth) == PValue(bs, p, depth);
  }

  lemma LeadingSpaceInDict(bs: Bytes, p: nat, depth: nat, acc: seq<Keyed<Json>>)
    requires p <= |bs| && depth <= MAX_DEPTH
    ensures PMembers(bs, SkipSpace(bs, p), depth, acc) == PMembers(bs, p, depth, acc)
  {
    hide PValue;
    SkippingTwice(bs, p);
    assert PKey(bs, SkipSpace(bs, p), acc) == PKey(bs, p, acc);
    assert PMember(bs, SkipSpace(bs, p), depth, acc) == PMember(bs, p, depth, acc);
  }

  lemma TwoBytes(bs: Bytes, p: nat, a: Byte, b: Byte)
    requires p + 2 <= |bs| && bs[p] == a && bs[p + 1] == b
    ensures At(bs, p, [a, b])
  {
    assert bs[p..p + 2] == [a, b];
  }

  lemma FourBytes(bs: Bytes, p: nat) returns (ds: Bytes)
    requires p <= |bs| && PHex(bs, p).Got?
    ensures FourHex(ds) && At(bs, p, ds) && PHex(bs, p) == Got(Hex4(ds, 0), p + 4)
  {
    ds := bs[p..p + 4];
    assert ds[0] == bs[p] && ds[1] == bs[p + 1] && ds[2] == bs[p + 2] && ds[3] == bs[p + 3];
  }

  /** Any accepted escape or character is a spelling of what was read. */
  lemma UnicodeSpelling(bs: Bytes, p: nat) returns (sp: Spelling)
    requires p + 2 <= |bs| && At(bs, p, [0x5C, 0x75]) && PUnicode(bs, p + 2).Got?
    ensures WellSpelt(sp) && At(bs, p, Spelt(sp)) && PUnicode(bs, p + 2) == Got(Spells(sp), p + |Spelt(sp)|)
  {
    hide ValidFrom, Boundary, DecodeAt, At, PHex;
    var u: Bytes := [0x5C, 0x75];
    var high := FourBytes(bs, p + 2);
    AtSplit(bs, p, u, high);
    if 0xD800 <= Hex4(high, 0) <= 0xDBFF {
      var low := FourBytes(bs, p + 8);
      AtSplit(bs, p + 6, u, low);
      AtSplit(bs, p, u + high, u + low);
      sp := Pair(high, low);
    } else {
      sp := Hex(high);
    }
  }

  lemma RawSpelling(bs: Bytes, p: nat, acc: Str) returns (sp: Spelling)
    requires p < |bs| && bs[p] != 0x22 && bs[p] != 0x5C && PString(bs, p, acc).Got?
    ensures WellSpelt(sp) && At(bs, p, Spelt(sp)) && p + |Spelt(sp)| <= |bs|
    ensures PString(bs, p, acc) == PString(bs, p + |Spelt(sp)|, acc + [Spells(sp)])
  {
    hide ValidFrom;
    EncodeOfDecode(bs, p);
    var d := DecodeAt(bs, p).value;
    AtByte(bs, p, Encode(d.scalar), 0);
    hide Encode, DecodeAt, At;
    sp := Raw(d.scalar);
  }

  lemma EscapeSpelling(bs: Bytes, p: nat) returns (sp: Spelling)
    requires p < |bs| && bs[p] == 0x5C && PEscape(bs, p + 1).Got?
    ensures WellSpelt(sp) && At(bs, p, Spelt(sp))
    ensures PEscape(bs, p + 1) == Got(Spells(sp), p + |Spelt(sp)|)
  {
    hide PUnicode, ValidFrom;
    TwoBytes(bs, p, 0x5C, bs[p + 1]);
    hide At;
    if bs[p + 1] == 0x75 {
      sp := UnicodeSpelling(bs, p);
    } else {
      sp := Short(bs[p + 1]);
    }
  }

  lemma CharacterSpelling(bs: Bytes, p: nat, acc: Str) returns (sp: Spelling)
    requires p < |bs| && bs[p] != 0x22 && PString(bs, p, acc).Got?
    ensures WellSpelt(sp) && At(bs, p, Spelt(sp)) && p + |Spelt(sp)| <= |bs|
    ensures PString(bs, p, acc) == PString(bs, p + |Spelt(sp)|, acc + [Spells(sp)])
  {
    hide PEscape, At, WellSpelt, Spelt, Spells, ValidFrom, DecodeAt;
    if bs[p] != 0x5C {
      sp := RawSpelling(bs, p, acc);
    } else {
      sp := EscapeSpelling(bs, p);
    }
  }

  lemma {:induction false} StringSpelling(bs: Bytes, p: nat, acc: Str) returns (ss: seq<Spelling>)
    requires p <= |bs| && PString(bs, p, acc).Got?
    ensures AllSpelt(ss) && At(bs, p, SpeltAll(ss) + [0x22])
    ensures PString(bs, p, acc) == Got(acc + SpellsAll(ss), p + |SpeltAll(ss)| + 1)
    decreases |bs| - p
  {
    hide ValidFrom, DecodeAt, PEscape, WellSpelt, Spelt, Spells;
    if bs[p] == 0x22 {
      ss := [];
      assert SpeltAll(ss) + [0x22] == [0x22] == bs[p..p + 1];
      assert acc + SpellsAll(ss) == acc;
    } else {
      var sp := CharacterSpelling(bs, p, acc);
      SpeltIsLong(sp);
      var rest := StringSpelling(bs, p + |Spelt(sp)|, acc + [Spells(sp)]);
      ss := [sp] + rest;
      AtSplit(bs, p, Spelt(sp), SpeltAll(rest) + [0x22]);
      assert ss[1..] == rest;
      FirstSpelling(ss);
      hide SpellsAll;
      assert acc + [Spells(sp)] + SpellsAll(rest) == acc + ([Spells(sp)] + SpellsAll(rest));
    }
  }

  lemma SpeltIsLong(sp: Spelling)
    requires WellSpelt(sp)
    ensures |Spelt(sp)| > 0
  {
  }

  lemma QuotedSpelling(bs: Bytes, p: nat) returns (ss: seq<Spelling>)
    requires p < |bs| && bs[p] == 0x22 && PString(bs, p + 1, []).Got?
    ensures AllSpelt(ss) && At(bs, p, QuotedText(ss))
    ensures PString(bs, p + 1, []) == Got(SpellsAll(ss), p + |QuotedText(ss)|)
  {
    hide PString;
    ss := StringSpelling(bs, p + 1, []);
    assert At(bs, p, [0x22]) by { assert bs[p..p + 1] == [0x22]; }
    AtSplit(bs, p, [0x22], SpeltAll(ss) + [0x22]);
    assert QuotedText(ss) == [0x22] + (SpeltAll(ss) + [0x22]);
    assert [] + SpellsAll(ss) == SpellsAll(ss);
  }

  // ----- values

  /** What `PInner` accepts is the text of a tree. */
  lemma {:induction false} ValueSyntax(bs: Bytes, p: nat, depth: nat) returns (x: Syntax)
    requires p <= |bs| && depth <= MAX_DEPTH && PInner(bs, p, depth).Got?
    ensures Proper(x, MAX_DEPTH - depth + 1) && At(bs, p, Render(x))
    ensures PInner(bs, p, depth) == Got(Meaning(x), p + |Render(x)|)
    decreases |bs| - p, 1
  {
    hide At;
    var b := bs[p];
    if b == 0x5B {
      x := ListSyntax(bs, p, depth);
    } else if b == 0x7B {
      x := DictSyntax(bs, p, depth);
    } else {
      x := SimpleSyntax(bs, p, depth);
    }
  }

  lemma SimpleSyntax(bs: Bytes, p: nat, depth: nat) returns (x: Syntax)
    requires p < |bs| && depth <= MAX_DEPTH && PInner(bs, p, depth).Got? && bs[p] != 0x5B && bs[p] != 0x7B
    ensures Proper(x, MAX_DEPTH - depth + 1) && At(bs, p, Render(x))
    ensures PInner(bs, p, depth) == Got(Meaning(x), p + |Render(x)|)
  {
    hide PNumber, PString;
    var b := bs[p];
    var r := PInner(bs, p, depth);
    if b == 0x22 {
      var ss := QuotedSpelling(bs, p);
      x := Quote(ss);
    } else if b == 0x2D || IsDigit(b) {
      x := Digits(bs[p..r.next]);
    } else {
      x := Word(r.value);
    }
  }

  lemma EmptyListParses(bs: Bytes, p: nat, depth: nat)
    requires p < |bs| && bs[p] == 0x5B && depth <= MAX_DEPTH
    requires var q := SkipSpace(bs, p + 1); q < |bs| && bs[q] == 0x5D
    ensures PInner(bs, p, depth) == Got(Array([]), SkipSpace(bs, p + 1) + 1)
  {
    hide SkipSpace, PItems, PString, PNumber, PLiteral, Good, ValidFrom;
  }

  lemma EmptyListSyntax(bs: Bytes, p: nat, depth: nat) returns (x: Syntax)
    requires p < |bs| && bs[p] == 0x5B && depth <= MAX_DEPTH
    requires var q := SkipSpace(bs, p + 1); q < |bs| && bs[q] == 0x5D
    ensures Proper(x, MAX_DEPTH - depth + 1) && At(bs, p, Render(x))
    ensures PInner(bs, p, depth) == Got(Meaning(x), p + |Render(x)|)
  {
    EmptyTreeList();
    EmptyListParses(bs, p, depth);
    hide PInner, Good, ValidFrom;
    var gap := SkippedAreSpaces(bs, p + 1);
    OneByte(bs, p);
    OneByte(bs, p + 1 + |gap|);
    hide At, SkipSpace;
    AtSplit(bs, p + 1, gap, [0x5D]);
    AtSplit(bs, p, [0x5B], gap + [0x5D]);
    x := List([], gap);
    assert Render(x) == [0x5B] + (gap + [0x5D]);
  }

  lemma EmptyTreeList()
    ensures Meanings([]) == []
  {
  }

  lemma {:induction false} ListSyntax(bs: Bytes, p: nat, depth: nat) returns (x: Syntax)
    requires p < |bs| && bs[p] == 0x5B && depth <= MAX_DEPTH && PInner(bs, p, depth).Got?
    ensures Proper(x, MAX_DEPTH - depth + 1) && At(bs, p, Render(x))
    ensures PInner(bs, p, depth) == Got(Meaning(x), p + |Render(x)|)
    decreases |bs| - p, 0
  {
    hide PString, PNumber, Good, ValidFrom, PLiteral, PItems, RenderItems, Meanings, ProperItem;
    OneByte(bs, p);
    hide At;
    var q := SkipSpace(bs, p + 1);
    if q < |bs| && bs[q] == 0x5D {
      x := EmptyListSyntax(bs, p, depth);
    } else {
      LeadingSpaceInList(bs, p + 1, depth, []);
      var items := ItemsSyntax(bs, p + 1, depth, []);
      x := List(items, []);
      AtSplit(bs, p, [0x5B], RenderItems(items, 0));
      assert [] + RenderItems(items, 0) == RenderItems(items, 0) && [] + Meanings(items) == Meanings(items);
    }
  }

  lemma OneByte(bs: Bytes, p: nat)
    requires p < |bs|
    ensures At(bs, p, [bs[p]])
  {
    assert bs[p..p + 1] == [bs[p]];
  }

  /** A value with the white space on both sides of it. */
  lemma {:induction false} ItemSyntax(bs: Bytes, p: nat, depth: nat) returns (item: Item)
    requires p <= |bs| && PValue(bs, p, depth).Got?
    ensures ProperItem(item, MAX_DEPTH - depth) && At(bs, p, RenderItem(item))
    ensures PValue(bs, p, depth).value == Meaning(item.syntax)
    ensures SkipSpace(bs, PValue(bs, p, depth).next) == p + |RenderItem(item)|
    decreases |bs| - p, 2
  {
    hide At, Spaces, PInner, Proper, Render, Meaning;
    var before := SkippedAreSpaces(bs, p);
    var s := p + |before|;
    var x := ValueSyntax(bs, s, depth + 1);
    var after := SkippedAreSpaces(bs, s + |Render(x)|);
    item := Item(before, x, after);
    AtSplit(bs, s, Render(x), after);
    AtSplit(bs, p, before, Render(x) + after);
  }

  lemma {:induction false} RenderShift(item: Item, rest: seq<Item>, i: nat)
    requires rest != [] && i <= |rest|
    ensures RenderItems([item] + rest, i + 1) == RenderItems(rest, i)
    decreases |rest| - i
  {
    hide RenderItem, RenderItems;
    var all := [item] + rest;
    if i < |rest| {
      assert all[i + 1] == rest[i];
      RenderShift(item, rest, i + 1);
      RenderItemsStep(all, i + 1);
      RenderItemsStep(rest, i);
    } else {
      NoMoreItems(all);
      NoMoreItems(rest);
    }
  }

  lemma OneItem(item: Item)
    ensures RenderItems([item], 0) == RenderItem(item) + [0x5D]
  {
    hide RenderItem;
    assert RenderItems([item], 1) == [] && Follow(true, 0x5D) + [] == [0x5D];
  }

  lemma MoreItems(item: Item, rest: seq<Item>)
    requires rest != []
    ensures RenderItems([item] + rest, 0) == RenderItem(item) + ([0x2C] + RenderItems(rest, 0))
  {
    hide RenderItem;
    RenderShift(item, rest, 0);
  }

  lemma ConsMeanings(item: Item, rest: seq<Item>)
    ensures Meanings([item] + rest) == [Meaning(item.syntax)] + Meanings(rest)
    ensures Meanings([]) == []
  {
    hide Meaning, ItemMeaning;
    MeaningsAt([item] + rest, 0);
  }

  lemma ConsMembers(e: Entry, rest: seq<Entry>)
    ensures Members([e] + rest) == [Keyed(SpellsAll(e.key), Meaning(e.item.syntax))] + Members(rest)
    ensures Members([]) == []
  {
    hide Meaning, EntryMeaning;
    MembersAt([e] + rest, 0);
  }

  lemma {:induction false} ItemsSyntax(bs: Bytes, p: nat, depth: nat, acc: seq<Json>) returns (items: seq<Item>)
    requires p <= |bs| && depth <= MAX_DEPTH && PItems(bs, p, depth, acc).Got?
    ensures items != [] && forall i | 0 <= i < |items| :: ProperItem(items[i], MAX_DEPTH - depth)
    ensures At(bs, p, RenderItems(items, 0))
    ensures PItems(bs, p, depth, acc) == Got(Array(acc + Meanings(items)), p + |RenderItems(items, 0)|)
    decreases |bs| - p, 3
  {
    hide Meanings, Good, ValidFrom, At, Meaning, PValue, RenderItem, RenderItems, ProperItem;
    var item := ItemSyntax(bs, p, depth);
    var v := Meaning(item.syntax);
    var n := p + |RenderItem(item)|;
    OneByte(bs, n);
    if bs[n] == 0x2C {
      var rest := ItemsSyntax(bs, n + 1, depth, acc + [v]);
      items := [item] + rest;
      MoreItems(item, rest);
      ConsMeanings(item, rest);
      AtSplit(bs, n, [0x2C], RenderItems(rest, 0));
      AtSplit(bs, p, RenderItem(item), [0x2C] + RenderItems(rest, 0));
      assert acc + [v] + Meanings(rest) == acc + ([v] + Meanings(rest));
    } else {
      items := [item];
      OneItem(item);
      AtSplit(bs, p, RenderItem(item), [0x5D]);
      ConsMeanings(item, []);
      assert items == [item] + [] && Meanings(items) == [v];
    }
  }

  lemma EmptyDictParses(bs: Bytes, p: nat, depth: nat)
    requires p < |bs| && bs[p] == 0x7B && depth <= MAX_DEPTH
    requires var q := SkipSpace(bs, p + 1); q < |bs| && bs[q] == 0x7D
    ensures PInner(bs, p, depth) == Got(Object([]), SkipSpace(bs, p + 1) + 1)
  {
    hide SkipSpace, PMembers, PString, PNumber, PLiteral, Good, ValidFrom;
  }

  lemma EmptyDictSyntax(bs: Bytes, p: nat, depth: nat) returns (x: Syntax)
    requires p < |bs| && bs[p] == 0x7B && depth <= MAX_DEPTH
    requires var q := SkipSpace(bs, p + 1); q < |bs| && bs[q] == 0x7D
    ensures Proper(x, MAX_DEPTH - depth + 1) && At(bs, p, Render(x))
    ensures PInner(bs, p, depth) == Got(Meaning(x), p + |Render(x)|)
  {
    EmptyTreeDict();
    EmptyDictParses(bs, p, depth);
    hide PInner, Good, ValidFrom;
    var gap := SkippedAreSpaces(bs, p + 1);
    OneByte(bs, p);
    OneByte(bs, p + 1 + |gap|);
    hide At, SkipSpace;
    AtSplit(bs, p + 1, gap, [0x7D]);
    AtSplit(bs, p, [0x7B], gap + [0x7D]);
    x := Dict([], gap);
    assert Render(x) == [0x7B] + (gap + [0x7D]);
  }

  lemma EmptyTreeDict()
    ensures Members([]) == []
  {
  }

  lemma {:induction false} DictSyntax(bs: Bytes, p: nat, depth: nat) returns (x: Syntax)
    requires p < |bs| && bs[p] == 0x7B && depth <= MAX_DEPTH && PInner(bs, p, depth).Got?
    ensures Proper(x, MAX_DEPTH - depth + 1) && At(bs, p, Render(x))
    ensures PInner(bs, p, depth) == Got(Meaning(x), p + |Render(x)|)
    decreases |bs| - p, 0
  {
    hide PString, PNumber, Good, ValidFrom, PLiteral, PMembers, RenderEntries, Members, ProperEntry;
    OneByte(bs, p);
    hide At;
    var q := SkipSpace(bs, p + 1);
    if q < |bs| && bs[q] == 0x7D {
      x := EmptyDictSyntax(bs, p, depth);
    } else {
      LeadingSpaceInDict(bs, p + 1, depth, []);
      var es := EntriesSyntax(bs, p + 1, depth, []);
      x := Dict(es, []);
      AtSplit(bs, p, [0x7B], RenderEntries(es, 0));
      assert [] + RenderEntries(es, 0) == RenderEntries(es, 0) && [] + Members(es) == Members(es);
      DistinctEntries(es);
    }
  }

  lemma DistinctEntries(es: seq<Entry>)
    requires DistinctKeys(Members(es))
    ensures forall i, j | 0 <= i < j < |es| :: !SameKey(es[i], es[j])
  {
    hide Meaning;
    forall i, j | 0 <= i < j < |es| ensures !SameKey(es[i], es[j]) {
      MembersAt(es, i);
      MembersAt(es, j);
      assert Members(es)[i].key != Members(es)[j].key;
    }
  }

  lemma KeySyntax(bs: Bytes, p: nat, acc: seq<Keyed<Json>>) returns (before: Bytes, key: seq<Spelling>, between: Bytes)
    requires p <= |bs| && PKey(bs, p, acc).Got?
    ensures Spaces(before) && AllSpelt(key) && Spaces(between)
    ensures At(bs, p, before + (QuotedText(key) + (between + [0x3A])))
    ensures PKey(bs, p, acc) == Got(SpellsAll(key), p + |before + (QuotedText(key) + (between + [0x3A]))|)
  {
    hide At, HasKey, QuotedText, SpellsAll, AllSpelt, PString;
    before := SkippedAreSpaces(bs, p);
    var q := p + |before|;
    key := QuotedSpelling(bs, q);
    var k := q + |QuotedText(key)|;
    between := SkippedAreSpaces(bs, k);
    OneByte(bs, k + |between|);
    AtSplit(bs, k, between, [0x3A]);
    AtSplit(bs, q, QuotedText(key), between + [0x3A]);
    AtSplit(bs, p, before, QuotedText(key) + (between + [0x3A]));
  }

  lemma {:induction false} EntrySyntax(bs: Bytes, p: nat, depth: nat, acc: seq<Keyed<Json>>) returns (e: Entry)
    requires p <= |bs| && depth <= MAX_DEPTH && PMember(bs, p, depth, acc).Got?
    ensures ProperEntry(e, MAX_DEPTH - depth) && At(bs, p, RenderEntry(e))
    ensures PMember(bs, p, depth, acc).value == Keyed(SpellsAll(e.key), Meaning(e.item.syntax))
    ensures SkipSpace(bs, PMember(bs, p, depth, acc).next) == p + |RenderEntry(e)|
    decreases |bs| - p, 3
  {
    hide At, HasKey, QuotedText, SpellsAll, AllSpelt, PKey, PValue, RenderItem, Meaning, ProperItem;
    var before, key, between := KeySyntax(bs, p, acc);
    var head := before + (QuotedText(key) + (between + [0x3A]));
    var item := ItemSyntax(bs, p + |head|, depth);
    e := Entry(before, key, between, item);
    AtSplit(bs, p, head, RenderItem(item));
    assert RenderEntry(e) == head + RenderItem(item);
  }

  lemma {:induction false} RenderEntriesShift(e: Entry, rest: seq<Entry>, i: nat)
    requires rest != [] && i <= |rest|
    ensures RenderEntries([e] + rest, i + 1) == RenderEntries(rest, i)
    decreases |rest| - i
  {
    hide RenderEntry, RenderEntries;
    var all := [e] + rest;
    if i < |rest| {
      assert all[i + 1] == rest[i];
      RenderEntriesShift(e, rest, i + 1);
      RenderEntriesStep(all, i + 1);
      RenderEntriesStep(rest, i);
    } else {
      NoMoreEntries(all);
      NoMoreEntries(rest);
    }
  }

  lemma OneEntry(e: Entry)
    ensures RenderEntries([e], 0) == RenderEntry(e) + [0x7D]
  {
    hide RenderEntry;
    assert RenderEntries([e], 1) == [] && Follow(true, 0x7D) + [] == [0x7D];
  }

  lemma MoreEntries(e: Entry, rest: seq<Entry>)
    requires rest != []
    ensures RenderEntries([e] + rest, 0) == RenderEntry(e) + ([0x2C] + RenderEntries(rest, 0))
  {
    hide RenderEntry;
    RenderEntriesShift(e, rest, 0);
  }

  lemma OneMoreKey(acc: seq<Keyed<Json>>, m: Keyed<Json>)
    requires !HasKey(acc, m.key)
    ensures DistinctKeys(acc) ==> DistinctKeys(acc + [m])
  {
  }

  lemma {:induction false} EntriesSyntax(bs: Bytes, p: nat, depth: nat, acc: seq<Keyed<Json>>) returns (es: seq<Entry>)
    requires p <= |bs| && depth <= MAX_DEPTH && PMembers(bs, p, depth, acc).Got?
    ensures es != [] && forall i | 0 <= i < |es| :: ProperEntry(es[i], MAX_DEPTH - depth)
    ensures At(bs, p, RenderEntries(es, 0))
    ensures PMembers(bs, p, depth, acc) == Got(Object(acc + Members(es)), p + |RenderEntries(es, 0)|)
    ensures DistinctKeys(acc) ==> DistinctKeys(acc + Members(es))
    decreases |bs| - p, 4
  {
    hide Members, DistinctKeys, ValidFrom, HasKey, At, Meaning, PMember, RenderEntry, RenderEntries, ProperEntry,
         SpellsAll, Good;
    var e := EntrySyntax(bs, p, depth, acc);
    var m := PMember(bs, p, depth, acc).value;
    var n := p + |RenderEntry(e)|;
    OneByte(bs, n);
    OneMoreKey(acc, m);
    if bs[n] == 0x2C {
      var rest := EntriesSyntax(bs, n + 1, depth, acc + [m]);
      es := [e] + rest;
      MoreEntries(e, rest);
      ConsMembers(e, rest);
      AtSplit(bs, n, [0x2C], RenderEntries(rest, 0));
      AtSplit(bs, p, RenderEntry(e), [0x2C] + RenderEntries(rest, 0));
      assert acc + [m] + Members(rest) == acc + ([m] + Members(rest));
    } else {
      es := [e];
      OneEntry(e);
      AtSplit(bs, p, RenderEntry(e), [0x7D]);
      ConsMembers(e, []);
      assert es == [e] + [] && Members(es) == [m];
    }
  }

  // ----- the parser is exact

  ghost predicate TextOf(bs: Bytes, v: Json, item: Item) {
    ProperItem(item, 64) && RenderItem(item) == bs && Meaning(item.syntax) == v
  }

  /** Parsing returns a value exactly when the input is a proper text, nested at most 64 deep
      and without duplicate keys, that means it. */
  lemma ParserIsExact(bs: Bytes, v: Json)
    ensures Parse(bs) == Ok(v) <==> exists item :: TextOf(bs, v, item)
  {
    hide ProperItem, RenderItem, Meaning;
    if Parse(bs) == Ok(v) {
      var item := ItemSyntax(bs, 0, 0);
      assert bs[0..|bs|] == bs;
      assert TextOf(bs, v, item);
    }
    if item :| TextOf(bs, v, item) {
      ProperTextsParse(item, MAX_DEPTH);
    }
  }
}
