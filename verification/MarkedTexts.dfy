/** A marker's prefix in the texts that comments are made of: pretty-printed and canonical JSON
    contain it exactly when some string of the value they load to does. */
module MarkedTexts {
  import opened Ascii
  import opened Common
  import opened Utf8
  import opened JsonValue
  import opened JsonPrinter
  import opened JsonParser
  import opened JsonSyntax
  import opened JsonAcceptance
  import opened JsonTheorems
  import opened Text
  import opened CommentFraming
  import opened CommentJson
  import opened Mentions

  // ----- Python values

  /** Some string of the value, a name or a content, contains the text. */
  predicate Tells(v: Value, t: string)
    decreases v
  {
    match v
    case VString(s) => Contains(s, t)
    case VList(items) => exists i :: 0 <= i < |items| && Tells(items[i], t)
    case VObject(ms) => exists i :: 0 <= i < |ms| && TellsIn(ms[i], t)
    case _ => false
  }

  predicate TellsIn(m: Member, t: string)
    decreases m
  {
    Contains(m.name, t) || Tells(m.value, t)
  }

  predicate MarkText(t: string) {
    Mark(ScalarsOf(t))
  }

  lemma ContainsIsHas(s: string, t: string)
    ensures Contains(s, t) <==> Has(ScalarsOf(s), ScalarsOf(t))
  {
    var a, b := ScalarsOf(s), ScalarsOf(t);
    if i :| 0 <= i <= |s| && OccursAt(s, t, i) {
      assert a[i..i + |b|] == b by {
        forall k | 0 <= k < |b| ensures a[i..i + |b|][k] == b[k] { assert s[i..i + |t|][k] == t[k]; }
      }
      assert Stands(a, b, i);
    }
    if i: nat :| Stands(a, b, i) {
      forall k | 0 <= k < |t| ensures s[i..i + |t|][k] == t[k] { assert a[i..i + |b|][k] == b[k]; }
      assert s[i..i + |t|] == t;
      assert OccursAt(s, t, i);
    }
  }

  lemma TextContainsIsHas(s: Str, t: string)
    ensures Contains(TextOf(s), t) <==> Has(s, ScalarsOf(t))
  {
    ContainsIsHas(TextOf(s), t);
    assert forall i | 0 <= i < |s| :: ScalarsOf(TextOf(s))[i] == s[i];
    assert ScalarsOf(TextOf(s)) == s;
  }

  lemma {:induction false} InsertHolds(m: Member, ms: seq<Member>)
    ensures forall x :: x in InsertMember(m, ms) <==> x == m || x in ms
  {
    hide NameLess;
    if ms != [] {
      InsertHolds(m, ms[1..]);
      assert ms == [ms[0]] + ms[1..];
    }
  }

  predicate SomeTells(ms: seq<Member>, t: string) {
    exists m :: m in ms && TellsIn(m, t)
  }

  lemma SomeTellsAt(ms: seq<Member>, t: string)
    ensures SomeTells(ms, t) <==> Tells(VObject(ms), t)
  {
    hide TellsIn;
    if m :| m in ms && TellsIn(m, t) {
      var i :| 0 <= i < |ms| && ms[i] == m;
      assert TellsIn(ms[i], t);
    }
    if i :| 0 <= i < |ms| && TellsIn(ms[i], t) { assert ms[i] in ms; }
  }

  /** Loading keeps what the strings of a text mention. */
  lemma {:induction false} FromJsonTells(v: Json, t: string)
    requires FromJson(v).Some?
    ensures Mentioned(v, ScalarsOf(t)) <==> Tells(FromJson(v).value, t)
    decreases v, 0
  {
    match v
    case String(s) => TextContainsIsHas(s, t);
    case Array(vs) => FromItemsTell(vs, 0, t);
    case Object(ms) =>
      FromMembersTell(ms, 0, t);
      SomeTellsAt(FromMembers(ms, 0).value, t);
    case _ =>
  }

  lemma {:induction false} FromItemsTell(vs: seq<Json>, i: nat, t: string)
    requires i <= |vs| && FromItems(vs, i).Some?
    ensures (exists k :: i <= k < |vs| && Mentioned(vs[k], ScalarsOf(t)))
            <==> Tells(VList(FromItems(vs, i).value), t)
    decreases vs, 1, |vs| - i
  {
    hide FromJson, Contains, Has;
    if i < |vs| {
      FromJsonTells(vs[i], t);
      FromItemsTell(vs, i + 1, t);
      var first, rest := FromJson(vs[i]).value, FromItems(vs, i + 1).value;
      assert FromItems(vs, i).value == [first] + rest;
      if k :| 0 <= k < |rest| && Tells(rest[k], t) { assert ([first] + rest)[k + 1] == rest[k]; }
      if k :| 0 <= k < |[first] + rest| && Tells(([first] + rest)[k], t) {
        assert k > 0 ==> ([first] + rest)[k] == rest[k - 1];
      }
      assert ([first] + rest)[0] == first;
    }
  }

  lemma {:induction false} FromMembersTell(ms: seq<Keyed<Json>>, i: nat, t: string)
    requires i <= |ms| && FromMembers(ms, i).Some?
    ensures (exists k :: i <= k < |ms| && MentionedIn(ms[k], ScalarsOf(t))) <==> SomeTells(FromMembers(ms, i).value, t)
    decreases ms, 1, |ms| - i
  {
    hide FromJson, Contains, Has, Tells, Mentioned, InsertMember;
    if i < |ms| {
      FromJsonTells(ms[i].value, t);
      TextContainsIsHas(ms[i].key, t);
      FromMembersTell(ms, i + 1, t);
      var m, rest := FromKeyed(ms[i]).value, FromMembers(ms, i + 1).value;
      InsertHolds(m, rest);
      assert TellsIn(m, t) <==> MentionedIn(ms[i], ScalarsOf(t));
      hide TellsIn, MentionedIn;
    }
  }

  // ----- pretty-printed JSON

  lemma SpellingIsDirect(c: char)
    ensures Direct(SpellingOf(c))
  {
    SpellingIsRight(c);
    hide Spells, Spelt, EscapeChar, HexCodes, WellSpelt;
  }

  lemma SpellingsAreDirect(s: string)
    ensures AllDirect(Spellings(s))
  {
    hide Direct;
    forall i | 0 <= i < |s| ensures Direct(Spellings(s)[i]) { SpellingIsDirect(s[i]); }
  }

  lemma SpacesAreBare(bs: Bytes)
    requires Spaces(bs)
    ensures Bare(bs)
  {
  }

  lemma IntegersAreBare(n: int)
    ensures Bare(IntegerBytes(n))
  {
    var t := DigitBytes(if n < 0 then -n else n);
    assert forall i | 0 <= i < |t| :: IsDigit(t[i]);
    hide DigitBytes;
  }

  lemma {:induction false} TreeIsDirect(v: Value, level: nat)
    ensures DirectTree(TreeOf(v, level))
    decreases v, 0
  {
    hide AllDirect, Bare, Spellings, IntegerBytes;
    match v
    case VInt(n) => IntegersAreBare(n);
    case VString(s) => SpellingsAreDirect(s);
    case VList(items) =>
      BracketsAreBare();
      forall i | 0 <= i < |items| ensures DirectItem(ItemsOf(items, level)[i]) {
        ItemIsDirect(items[i], level, i + 1 == |items|);
      }
    case VObject(ms) =>
      BracketsAreBare();
      forall i | 0 <= i < |ms| ensures DirectEntry(EntriesOf(ms, level)[i]) {
        EntryIsDirect(ms[i], level, i + 1 == |ms|);
      }
    case _ =>
  }

  lemma LayoutIsBare(level: nat)
    ensures Bare(Codes(NewLine(level))) && Bare([0x20])
  {
    NewLineIsSpace(level);
    SpacesAreBare(Codes(NewLine(level)));
  }

  lemma {:induction false} ItemIsDirect(v: Value, level: nat, last: bool)
    ensures DirectItem(ItemOf(v, level, last))
    decreases v, 1
  {
    hide Bare, DirectTree, Codes, NewLine, TreeOf;
    BracketsAreBare();
    LayoutIsBare(level);
    LayoutIsBare(level + 1);
    TreeIsDirect(v, level + 1);
  }

  lemma {:induction false} EntryIsDirect(m: Member, level: nat, last: bool)
    ensures DirectEntry(EntryOf(m, level, last))
    decreases m, 1
  {
    hide Bare, DirectTree, Codes, NewLine, TreeOf, AllDirect;
    BracketsAreBare();
    LayoutIsBare(level);
    LayoutIsBare(level + 1);
    SpellingsAreDirect(m.name);
    TreeIsDirect(m.value, level + 1);
  }

  /** Pretty-printed JSON contains the text exactly when some string of the value does. */
  lemma PrettyTells(v: Value, t: string)
    requires Ordered(v) && MarkText(t)
    ensures Contains(Pretty(v, 0), t) <==> Tells(v, t)
  {
    hide Contains, Has, Tells, Mark, Pretty, TreeOf, Render, Ordered, DirectTree, Mentioned, Meaning, FromJson;
    var s, x, p := Pretty(v, 0), TreeOf(v, 0), ScalarsOf(t);
    TreeHasTheText(v, 0);
    AsciiBytes(s);
    EncodedHas(ScalarsOf(s), p);
    ContainsIsHas(s, t);
    TreeIsDirect(v, 0);
    TextMentions(x, p);
    TreeMeansTheValue(v, 0);
    FromJsonTells(Meaning(x), t);
  }

  // ----- canonical JSON

  lemma PlainSpellingIsDirect(c: Scalar)
    ensures Direct(JsonTheorems.PlainSpelling(c))
  {
    hide HexDigit, Spelt, Escape;
  }

  lemma PlainStringIsDirect(s: Str)
    ensures AllDirect(PlainString(s))
  {
    hide Direct;
    forall i | 0 <= i < |s| ensures Direct(PlainString(s)[i]) { PlainSpellingIsDirect(s[i]); }
  }

  lemma NumbersAreBare(t: Bytes)
    requires NumberText(t)
    ensures Bare(t)
  {
    var minus: Bytes, i: Bytes, f: Bytes, e: Bytes :| NumberOf(minus, i, f, e) && t == minus + i + f + e;
    assert Bare(minus) && Bare(i);
    assert Bare(f) by { if f != [] { assert forall k | 1 <= k < |f| :: f[k] == f[1..][k - 1]; } }
    ExponentIsBare(e);
  }

  lemma ExponentIsBare(e: Bytes)
    requires ExponentPart(e)
    ensures Bare(e)
  {
    if e != [] {
      var k := if e[1] == 0x2B || e[1] == 0x2D then 2 else 1;
      assert forall i | k <= i < |e| :: e[i] == e[k..][i - k];
    }
  }

  lemma {:induction false} PlainIsDirect(v: Json, n: int)
    requires Good(v, n)
    ensures DirectTree(JsonTheorems.Plain(v))
    decreases v, 0
  {
    hide AllDirect, Bare, PlainString, NumberText;
    BracketsAreBare();
    match v
    case Number(t) => NumbersAreBare(t);
    case String(s) => PlainStringIsDirect(s);
    case Array(vs) =>
      forall i | 0 <= i < |vs| ensures DirectItem(PlainItems(vs)[i]) {
        PlainIsDirect(vs[i], n - 1);
        PlainItemsAt(vs, i);
      }
    case Object(ms) => PlainEntriesAreDirect(ms, n);
    case _ =>
  }

  lemma {:induction false} PlainEntriesAreDirect(ms: seq<Keyed<Json>>, n: int)
    requires Good(Object(ms), n)
    ensures DirectTree(Dict(PlainEntries(ms), []))
    decreases ms
  {
    hide AllDirect, Bare, PlainString;
    BracketsAreBare();
    forall i | 0 <= i < |ms| ensures DirectEntry(PlainEntries(ms)[i]) {
      assert ms[i] in ms;
      PlainIsDirect(ms[i].value, n - 1);
      PlainStringIsDirect(ms[i].key);
      PlainEntriesAt(ms, i);
    }
  }

  /** The text is what the journal's printer writes for the value. */
  ghost predicate CanonicalText(s: string, v: Json) {
    Good(v, MAX_DEPTH) && Jcs(v) == Ok(BytesOf(s))
  }

  lemma {:induction false} ProperIsMonotone(x: Syntax, m: int, n: int)
    requires Proper(x, m) && m <= n
    ensures Proper(x, n)
    decreases x
  {
    match x
    case List(items, _) =>
      forall i | 0 <= i < |items| ensures ProperItem(items[i], n - 1) { ProperItemIsMonotone(items[i], m - 1, n - 1); }
    case Dict(es, _) =>
      forall i | 0 <= i < |es| ensures ProperEntry(es[i], n - 1) { ProperEntryIsMonotone(es[i], m - 1, n - 1); }
    case _ =>
  }

  lemma {:induction false} ProperItemIsMonotone(item: Item, m: int, n: int)
    requires ProperItem(item, m) && m <= n
    ensures ProperItem(item, n)
    decreases item
  {
    ProperIsMonotone(item.syntax, m, n);
  }

  lemma {:induction false} ProperEntryIsMonotone(e: Entry, m: int, n: int)
    requires ProperEntry(e, m) && m <= n
    ensures ProperEntry(e, n)
    decreases e
  {
    ProperItemIsMonotone(e.item, m, n);
  }

  /** Loading a canonical text gives the value of its canonical form. */
  lemma LoadsCanonical(s: string, v: Json)
    requires CanonicalText(s, v)
    ensures Loads(s) == FromJson(Canon(v))
  {
    hide ParseWithin, Jcs, Good, Canon, Proper, FromJson, Render, Meaning, BytesOf;
    var bs, x := BytesOf(s), JsonTheorems.Plain(Canon(v));
    JcsIsPlain(v);
    CanonIsGood(v, MAX_DEPTH);
    PlainIsProper(Canon(v), MAX_DEPTH);
    ProperIsMonotone(x, MAX_DEPTH, |bs| + MAX_DEPTH);
    MeaningOfPlain(Canon(v));
    BareItem(x);
    ProperTextsParse(Item([], x, []), |bs| + MAX_DEPTH);
  }

  /** Canonical JSON contains the text exactly when some string of the value it loads to does. */
  lemma CanonicalTells(s: string, v: Json, t: string)
    requires CanonicalText(s, v) && Loads(s).Some? && MarkText(t)
    ensures Contains(s, t) <==> Tells(Loads(s).value, t)
  {
    hide Contains, Has, Tells, Mark, Jcs, Good, Canon, Render, DirectTree, Mentioned, Meaning, FromJson, Loads;
    var x, p := JsonTheorems.Plain(Canon(v)), ScalarsOf(t);
    LoadsCanonical(s, v);
    JcsIsPlain(v);
    CanonIsGood(v, MAX_DEPTH);
    PlainIsDirect(Canon(v), MAX_DEPTH);
    MeaningOfPlain(Canon(v));
    TextMentions(x, p);
    EncodedHas(ScalarsOf(s), p);
    ContainsIsHas(s, t);
    FromJsonTells(Canon(v), t);
  }
}
