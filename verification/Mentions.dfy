/** Where a marker's prefix can occur in JSON text: only inside a string. A text in which every
    plain character is written as itself contains the prefix exactly when some string of the
    value does. */
module Mentions {
  import opened Utf8
  import opened JsonValue
  import opened JsonParser
  import opened JsonSyntax

  // ----- marks: plain text that begins with an opening bracket

  /** Printable ASCII that JSON never has to escape. */
  predicate PlainByte(b: nat) {
    0x20 <= b <= 0x7E && b != 0x22 && b != 0x5C
  }

  predicate AllPlain(p: seq<nat>) {
    forall i | 0 <= i < |p| :: PlainByte(p[i])
  }

  predicate Mark(p: seq<nat>) {
    p != [] && p[0] == 0x3C && AllPlain(p)
  }

  predicate Stands(s: seq<nat>, p: seq<nat>, i: nat) {
    i + |p| <= |s| && s[i..i + |p|] == p
  }

  ghost predicate Has(s: seq<nat>, p: seq<nat>) {
    exists i: nat :: Stands(s, p, i)
  }

  /** No opening bracket. */
  predicate Bare(s: seq<nat>) {
    forall i | 0 <= i < |s| :: s[i] != 0x3C
  }

  /** A quote follows every opening bracket, so no mark runs over the end. */
  predicate Sealed(s: seq<nat>) {
    forall i | 0 <= i < |s| && s[i] == 0x3C :: QuoteAfter(s, i)
  }

  predicate QuoteAfter(s: seq<nat>, i: nat) {
    exists j :: i < j < |s| && s[j] == 0x22
  }

  lemma StandsAt(s: seq<nat>, p: seq<nat>, i: nat, k: nat)
    requires Stands(s, p, i) && k < |p|
    ensures i + k < |s| && s[i + k] == p[k]
  {
    assert s[i..i + |p|][k] == s[i + k];
  }

  lemma SealedTogether(s: seq<nat>, t: seq<nat>)
    requires Sealed(s) && Sealed(t)
    ensures Sealed(s + t)
  {
    forall i | 0 <= i < |s + t| && (s + t)[i] == 0x3C ensures QuoteAfter(s + t, i) {
      if i < |s| {
        assert QuoteAfter(s, i);
        var j :| i < j < |s| && s[j] == 0x22;
        assert (s + t)[j] == 0x22;
      } else {
        assert QuoteAfter(t, i - |s|);
        var j :| i - |s| < j < |t| && t[j] == 0x22;
        assert (s + t)[|s| + j] == 0x22;
      }
    }
  }

  /** A mark in two texts put together is in one of them, if the first is sealed. */
  lemma HasTogether(s: seq<nat>, t: seq<nat>, p: seq<nat>)
    requires Sealed(s) && Mark(p)
    ensures Has(s + t, p) <==> Has(s, p) || Has(t, p)
  {
    var u := s + t;
    if Has(u, p) {
      var i: nat :| Stands(u, p, i);
      if i >= |s| {
        assert t[i - |s|..i - |s| + |p|] == u[i..i + |p|];
        assert Stands(t, p, i - |s|);
      } else {
        StandsAt(u, p, i, 0);
        assert QuoteAfter(s, i);
        var j :| i < j < |s| && s[j] == 0x22;
        if j < i + |p| { StandsAt(u, p, i, j - i); }
        assert s[i..i + |p|] == u[i..i + |p|];
        assert Stands(s, p, i);
      }
    }
    if i: nat :| Stands(s, p, i) {
      assert u[i..i + |p|] == s[i..i + |p|];
      assert Stands(u, p, i);
    }
    if i: nat :| Stands(t, p, i) {
      assert u[|s| + i..|s| + i + |p|] == t[i..i + |p|];
      assert Stands(u, p, |s| + i);
    }
  }

  lemma BareHasNone(s: seq<nat>, p: seq<nat>)
    requires Bare(s) && Mark(p)
    ensures Sealed(s) && !Has(s, p)
  {
    if i: nat :| Stands(s, p, i) { StandsAt(s, p, i, 0); }
  }

  lemma BareTogether(s: seq<nat>, t: seq<nat>, p: seq<nat>)
    requires Bare(s) && Mark(p)
    ensures Has(s + t, p) <==> Has(t, p)
    ensures Sealed(t) ==> Sealed(s + t)
  {
    BareHasNone(s, p);
    HasTogether(s, t, p);
    if Sealed(t) { SealedTogether(s, t); }
  }

  // ----- characters written as pieces

  /** A plain character is written as itself, any other so that it cannot be taken for one. */
  predicate Faithful(piece: seq<nat>, c: nat) {
    if PlainByte(c) then piece == [c] else piece != [] && !PlainByte(piece[0]) && Bare(piece)
  }

  function Flat(pieces: seq<seq<nat>>): seq<nat> {
    if pieces == [] then [] else pieces[0] + Flat(pieces[1..])
  }

  predicate AllFaithful(pieces: seq<seq<nat>>, s: seq<nat>) {
    |pieces| == |s| && forall i | 0 <= i < |s| :: Faithful(pieces[i], s[i])
  }

  lemma {:induction false} StartsAlike(pieces: seq<seq<nat>>, s: seq<nat>, p: seq<nat>)
    requires AllFaithful(pieces, s) && AllPlain(p)
    ensures p <= Flat(pieces) <==> p <= s
    decreases |p|
  {
    if p != [] && pieces != [] {
      StartsAlike(pieces[1..], s[1..], p[1..]);
      assert Faithful(pieces[0], s[0]) && PlainByte(p[0]);
      var t := Flat(pieces);
      assert t[0] == pieces[0][0] && p == [p[0]] + p[1..] && s == [s[0]] + s[1..];
      if t[0] == p[0] || s[0] == p[0] {
        assert pieces[0] == [s[0]];
        assert t == [s[0]] + Flat(pieces[1..]);
        PrefixCons(s[0], Flat(pieces[1..]), p);
        PrefixCons(s[0], s[1..], p);
      }
    }
  }

  lemma PrefixCons(c: nat, s: seq<nat>, p: seq<nat>)
    requires p != []
    ensures p <= [c] + s <==> p[0] == c && p[1..] <= s
  {
    var u := [c] + s;
    if p <= u {
      assert p[0] == u[0];
      assert forall i | 0 <= i < |p| - 1 :: p[1..][i] == u[i + 1];
    }
    if p[0] == c && p[1..] <= s {
      assert forall i | 0 < i < |p| :: p[i] == p[1..][i - 1] == s[i - 1] == u[i];
    }
  }

  lemma HasCons(c: nat, s: seq<nat>, p: seq<nat>)
    ensures Has([c] + s, p) <==> p <= [c] + s || Has(s, p)
  {
    var u := [c] + s;
    if i: nat :| Stands(u, p, i) {
      if i > 0 {
        assert s[i - 1..i - 1 + |p|] == u[i..i + |p|];
        assert Stands(s, p, i - 1);
      } else {
        assert p == u[..|p|];
      }
    }
    if p <= u { assert Stands(u, p, 0); }
    if i: nat :| Stands(s, p, i) {
      assert u[i + 1..i + 1 + |p|] == s[i..i + |p|];
      assert Stands(u, p, i + 1);
    }
  }

  /** Faithful writing neither makes nor hides a mark. */
  lemma {:induction false} FlatHas(pieces: seq<seq<nat>>, s: seq<nat>, p: seq<nat>)
    requires AllFaithful(pieces, s) && Mark(p)
    ensures Has(Flat(pieces), p) <==> Has(s, p)
    decreases |s|
  {
    if s == [] {
      BareHasNone(s, p);
    } else {
      var rest := Flat(pieces[1..]);
      FlatHas(pieces[1..], s[1..], p);
      HasCons(s[0], s[1..], p);
      assert s == [s[0]] + s[1..];
      assert Faithful(pieces[0], s[0]);
      if PlainByte(s[0]) {
        HasCons(s[0], rest, p);
        StartsAlike(pieces, s, p);
      } else {
        BareTogether(pieces[0], rest, p);
      }
    }
  }

  /** The UTF-8 form of a text is faithful. */
  lemma EncodedHas(s: Str, p: seq<nat>)
    requires Mark(p)
    ensures Has(EncodeAll(s), p) <==> Has(s, p)
  {
    var pieces: seq<seq<nat>> := seq(|s|, i requires 0 <= i < |s| => Encode(s[i]));
    EncodeIsFlat(s, pieces);
    forall i | 0 <= i < |s| ensures Faithful(pieces[i], s[i]) {
      assert forall k | 1 <= k < |Encode(s[i])| :: Continuation(Encode(s[i])[k]);
    }
    FlatHas(pieces, s, p);
  }

  lemma {:induction false} EncodeIsFlat(s: Str, pieces: seq<seq<nat>>)
    requires |pieces| == |s| && forall i | 0 <= i < |s| :: pieces[i] == Encode(s[i])
    ensures Flat(pieces) == EncodeAll(s)
  {
    hide Encode;
    if s != [] { EncodeIsFlat(s[1..], pieces[1..]); }
  }

  // ----- strings as they are spelt

  /** A plain character is spelt as itself. */
  predicate Direct(sp: Spelling) {
    WellSpelt(sp) && (PlainByte(Spells(sp)) ==> sp.Raw?)
  }

  predicate AllDirect(ss: seq<Spelling>) {
    forall i | 0 <= i < |ss| :: Direct(ss[i])
  }

  lemma DirectIsFaithful(sp: Spelling)
    requires Direct(sp)
    ensures Faithful(Spelt(sp), Spells(sp))
  {
    hide Spells, Hex4;
    match sp
    case Raw(c) => RawSpells(sp);
    case Short(letter) =>
    case Hex(ds) => HexIsBare(ds);
    case Pair(high, low) => HexIsBare(high); HexIsBare(low);
  }

  lemma RawSpells(sp: Spelling)
    requires WellSpelt(sp) && sp.Raw?
    ensures Spells(sp) == sp.c
  {
  }

  lemma HexIsBare(ds: Bytes)
    requires FourHex(ds)
    ensures Bare(ds) && Bare([0x5C, 0x75] + ds)
  {
    assert ds == [ds[0], ds[1], ds[2], ds[3]];
  }

  lemma {:induction false} SpeltIsFlat(ss: seq<Spelling>, pieces: seq<seq<nat>>)
    requires |pieces| == |ss| && forall i | 0 <= i < |ss| :: pieces[i] == Spelt(ss[i])
    ensures Flat(pieces) == SpeltAll(ss)
  {
    hide Spelt;
    if ss != [] { SpeltIsFlat(ss[1..], pieces[1..]); }
  }

  lemma QuotedHas(ss: seq<Spelling>, p: seq<nat>)
    requires AllDirect(ss) && Mark(p)
    ensures Sealed(QuotedText(ss)) && (Has(QuotedText(ss), p) <==> Has(SpellsAll(ss), p))
  {
    hide Spelt, Spells, Direct;
    var pieces: seq<seq<nat>> := seq(|ss|, i requires 0 <= i < |ss| => Spelt(ss[i]));
    SpeltIsFlat(ss, pieces);
    forall i | 0 <= i < |ss| ensures Faithful(pieces[i], SpellsAll(ss)[i]) {
      DirectIsFaithful(ss[i]);
    }
    FlatHas(pieces, SpellsAll(ss), p);
    QuotesAround(SpeltAll(ss), p);
  }

  lemma QuotesAround(s: seq<nat>, p: seq<nat>)
    requires Mark(p)
    ensures var t := [0x22] + s + [0x22]; Sealed(t) && (Has(t, p) <==> Has(s, p))
  {
    var t := [0x22] + s + [0x22];
    assert t[|t| - 1] == 0x22;
    assert forall i | 0 <= i < |t| && t[i] == 0x3C :: i < |t| - 1;
    if i: nat :| Stands(t, p, i) {
      StandsAt(t, p, i, 0);
      StandsAt(t, p, i, |p| - 1);
      assert s[i - 1..i - 1 + |p|] == t[i..i + |p|];
      assert Stands(s, p, i - 1);
    }
    if i: nat :| Stands(s, p, i) {
      assert t[i + 1..i + 1 + |p|] == s[i..i + |p|];
      assert Stands(t, p, i + 1);
    }
  }

  // ----- values and their texts

  /** Some string of the value, a key or a content, has the mark. */
  ghost predicate Mentioned(v: Json, p: seq<nat>)
    decreases v
  {
    match v
    case String(s) => Has(s, p)
    case Array(vs) => exists i :: 0 <= i < |vs| && Mentioned(vs[i], p)
    case Object(ms) => exists i :: 0 <= i < |ms| && MentionedIn(ms[i], p)
    case _ => false
  }

  ghost predicate MentionedIn(m: Keyed<Json>, p: seq<nat>)
    decreases m
  {
    Has(m.key, p) || Mentioned(m.value, p)
  }

  predicate DirectTree(x: Syntax)
    decreases x
  {
    match x
    case Word(v) => v == Null || v.Bool?
    case Digits(t) => Bare(t)
    case Quote(ss) => AllDirect(ss)
    case List(items, gap) => Bare(gap) && forall i | 0 <= i < |items| :: DirectItem(items[i])
    case Dict(es, gap) => Bare(gap) && forall i | 0 <= i < |es| :: DirectEntry(es[i])
  }

  predicate DirectItem(item: Item)
    decreases item
  {
    Bare(item.before) && Bare(item.after) && DirectTree(item.syntax)
  }

  predicate DirectEntry(e: Entry)
    decreases e
  {
    Bare(e.before) && AllDirect(e.key) && Bare(e.between) && DirectItem(e.item)
  }

  lemma WordIsBare(v: Json)
    ensures Bare(WordText(v))
  {
  }

  /** The text of a direct tree has a mark exactly when the value it means mentions it. */
  lemma {:induction false} TextMentions(x: Syntax, p: seq<nat>)
    requires DirectTree(x) && Mark(p)
    ensures Sealed(Render(x)) && (Has(Render(x), p) <==> Mentioned(Meaning(x), p))
    decreases x, 0
  {
    hide Mark, Sealed, Has, Bare;
    match x
    case Word(v) => WordIsBare(v); BareHasNone(WordText(v), p);
    case Digits(t) => BareHasNone(t, p);
    case Quote(ss) => QuotedHas(ss, p);
    case List(items, gap) => ListMentions(items, gap, p);
    case Dict(es, gap) => DictMentions(es, gap, p);
  }

  lemma BracketsAreBare()
    ensures Bare([0x5B]) && Bare([0x5D]) && Bare([0x7B]) && Bare([0x7D]) && Bare([0x2C]) && Bare([0x3A]) && Bare([])
  {
  }

  lemma {:induction false} ListMentions(items: seq<Item>, gap: Bytes, p: seq<nat>)
    requires DirectTree(List(items, gap)) && Mark(p)
    ensures var x := List(items, gap); Sealed(Render(x)) && (Has(Render(x), p) <==> Mentioned(Meaning(x), p))
    decreases items, 1
  {
    hide Mark, Sealed, Has, Bare, RenderItems;
    var rest := RenderItems(items, 0);
    BracketsAreBare();
    ItemsMention(items, Meanings(items), 0, p);
    BareTogether(gap, rest, p);
    BareTogether([0x5B], gap + rest, p);
    assert Render(List(items, gap)) == [0x5B] + (gap + rest);
    assert Meaning(List(items, gap)) == Array(Meanings(items));
  }

  lemma {:induction false} ItemMentions(item: Item, p: seq<nat>)
    requires DirectItem(item) && Mark(p)
    ensures Sealed(RenderItem(item)) && (Has(RenderItem(item), p) <==> Mentioned(ItemMeaning(item), p))
    decreases item
  {
    hide Mark, Sealed, Has, Bare, Render, Meaning, DirectTree;
    var text := Render(item.syntax);
    TextMentions(item.syntax, p);
    BareHasNone(item.after, p);
    SealedTogether(text, item.after);
    HasTogether(text, item.after, p);
    BareTogether(item.before, text + item.after, p);
  }

  lemma {:induction false} ItemsMention(items: seq<Item>, vs: seq<Json>, i: nat, p: seq<nat>)
    requires vs == Meanings(items) && i <= |items| && Mark(p) && forall k | 0 <= k < |items| :: DirectItem(items[k])
    ensures Sealed(RenderItems(items, i))
    ensures Has(RenderItems(items, i), p) <==> exists k :: i <= k < |vs| && Mentioned(vs[k], p)
    decreases items, 0, |items| - i
  {
    hide Mark, Sealed, Has, Bare, RenderItem, Meaning, DirectItem;
    BracketsAreBare();
    if i == |items| {
      BareHasNone(RenderItems(items, i), p);
    } else {
      var text, follow, rest := RenderItem(items[i]), Follow(i + 1 == |items|, 0x5D), RenderItems(items, i + 1);
      ItemMentions(items[i], p);
      ItemsMention(items, vs, i + 1, p);
      assert vs[i] == ItemMeaning(items[i]);
      RenderItemsStep(items, i);
      BareTogether(follow, rest, p);
      SealedTogether(text, follow + rest);
      HasTogether(text, follow + rest, p);
      hide RenderItems, Meanings, ItemMeaning;
    }
  }

  lemma {:induction false} DictMentions(es: seq<Entry>, gap: Bytes, p: seq<nat>)
    requires DirectTree(Dict(es, gap)) && Mark(p)
    ensures var x := Dict(es, gap); Sealed(Render(x)) && (Has(Render(x), p) <==> Mentioned(Meaning(x), p))
    decreases es, 1
  {
    hide Mark, Sealed, Has, Bare, RenderEntries;
    var rest := RenderEntries(es, 0);
    BracketsAreBare();
    EntriesMention(es, Members(es), 0, p);
    BareTogether(gap, rest, p);
    BareTogether([0x7B], gap + rest, p);
    assert Render(Dict(es, gap)) == [0x7B] + (gap + rest);
    assert Meaning(Dict(es, gap)) == Object(Members(es));
  }

  lemma {:induction false} EntryMentions(e: Entry, p: seq<nat>)
    requires DirectEntry(e) && Mark(p)
    ensures Sealed(RenderEntry(e)) && (Has(RenderEntry(e), p) <==> MentionedIn(EntryMeaning(e), p))
    decreases e
  {
    hide Mark, Sealed, Has, Bare, RenderItem, ItemMeaning, DirectItem, QuotedText;
    BracketsAreBare();
    var key, text := QuotedText(e.key), RenderItem(e.item);
    ItemMentions(e.item, p);
    QuotedHas(e.key, p);
    BareTogether([0x3A], text, p);
    BareTogether(e.between, [0x3A] + text, p);
    SealedTogether(key, e.between + ([0x3A] + text));
    HasTogether(key, e.between + ([0x3A] + text), p);
    BareTogether(e.before, key + (e.between + ([0x3A] + text)), p);
  }

  lemma {:induction false} EntriesMention(es: seq<Entry>, ms: seq<Keyed<Json>>, i: nat, p: seq<nat>)
    requires ms == Members(es) && i <= |es| && Mark(p) && forall k | 0 <= k < |es| :: DirectEntry(es[k])
    ensures Sealed(RenderEntries(es, i))
    ensures Has(RenderEntries(es, i), p) <==> exists k :: i <= k < |ms| && MentionedIn(ms[k], p)
    decreases es, 0, |es| - i
  {
    hide Mark, Sealed, Has, Bare, RenderEntry, DirectEntry, MentionedIn;
    BracketsAreBare();
    if i == |es| {
      BareHasNone(RenderEntries(es, i), p);
    } else {
      var text, follow, rest := RenderEntry(es[i]), Follow(i + 1 == |es|, 0x7D), RenderEntries(es, i + 1);
      EntryMentions(es[i], p);
      EntriesMention(es, ms, i + 1, p);
      assert ms[i] == EntryMeaning(es[i]);
      RenderEntriesStep(es, i);
      BareTogether(follow, rest, p);
      SealedTogether(text, follow + rest);
      HasTogether(text, follow + rest, p);
      hide RenderEntries, Members, EntryMeaning;
    }
  }
}
