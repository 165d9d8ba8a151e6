/** What parsing and canonical printing promise together: the round trip, the canonicality of
    the printed text, and its stability. */
module JsonTheorems {
  import opened Ascii
  import opened Common
  import opened Utf8
  import opened JsonValue
  import opened JsonPrinter
  import opened JsonParser
  import opened JsonSyntax
  import opened JsonAcceptance

  /** The value with members sorted by UTF-16 at every level and integers normalized. */
  function Canon(v: Json): Json
    decreases v
  {
    match v
    case Number(t) => if JcsNumber(t).Ok? then Number(JcsNumber(t).value) else v
    case Array(vs) => Array(CanonItems(vs))
    case Object(ms) => Object(Sort(CanonMembers(ms)))
    case _ => v
  }

  function CanonItems(vs: seq<Json>): (ws: seq<Json>)
    ensures |ws| == |vs|
    decreases vs
  {
    seq(|vs|, i requires 0 <= i < |vs| => Canon(vs[i]))
  }

  function CanonMember(m: Keyed<Json>): Keyed<Json>
    decreases m
  {
    Keyed(m.key, Canon(m.value))
  }

  function CanonMembers(ms: seq<Keyed<Json>>): (ns: seq<Keyed<Json>>)
    ensures |ns| == |ms|
    decreases ms
  {
    seq(|ms|, i requires 0 <= i < |ms| => CanonMember(ms[i]))
  }

  lemma CanonMembersAt(ms: seq<Keyed<Json>>, i: nat)
    requires i < |ms|
    ensures CanonMembers(ms)[i] == Keyed(ms[i].key, Canon(ms[i].value))
  {
    assert CanonMembers(ms)[i] == CanonMember(ms[i]);
  }

  lemma CanonSorts(ms: seq<Keyed<Json>>)
    ensures Sort(CanonMembers(ms)) == CanonMembers(Sort(ms))
  {
    forall ns: seq<Keyed<Json>> ensures CanonMembers(ns) == MapValues(Canon, ns) {
      forall i | 0 <= i < |ns| ensures CanonMembers(ns)[i] == MapValues(Canon, ns)[i] { CanonMembersAt(ns, i); }
    }
    SortCommutes(Canon, ms);
  }

  // ----- printing does not depend on order and spelling

  lemma NumberOfNumber(t: Bytes)
    requires JcsNumber(t).Ok?
    ensures IntegerText(JcsNumber(t).value) && IntegerValue(JcsNumber(t).value) == IntegerValue(t)
    ensures JcsNumber(JcsNumber(t).value) == JcsNumber(t)
    ensures NumberText(JcsNumber(t).value)
  {
    var n := IntegerValue(t);
    IntegerRoundTrip(n);
    IntegerIsNumber(n);
  }

  lemma IntegerIsNumber(n: int)
    ensures NumberText(IntegerBytes(n))
  {
    var minus: Bytes := if n < 0 then [0x2D] else [];
    var i := DigitBytes(if n < 0 then -n else n);
    assert IntegerPart(i);
    assert NumberOf(minus, i, [], []);
    assert IntegerBytes(n) == minus + i + [] + [];
  }

  /** The canonical form of a value prints as the value does. */
  lemma {:induction false} CanonPrintsSame(v: Json)
    ensures Jcs(Canon(v)) == Jcs(v)
    decreases v
  {
    match v
    case Number(t) => if JcsNumber(t).Ok? { NumberOfNumber(t); }
    case Array(vs) => CanonItemsPrintSame(vs, 0);
    case Object(ms) => CanonMembersPrintSame(ms);
    case _ =>
  }

  lemma {:induction false} CanonItemsPrintSame(vs: seq<Json>, i: nat)
    requires i <= |vs|
    ensures JcsItems(CanonItems(vs), i) == JcsItems(vs, i)
    decreases vs, |vs| - i
  {
    hide Jcs;
    if i < |vs| {
      CanonPrintsSame(vs[i]);
      CanonItemsPrintSame(vs, i + 1);
    }
  }

  lemma {:induction false} CanonMembersPrintSame(ms: seq<Keyed<Json>>)
    ensures Jcs(Object(Sort(CanonMembers(ms)))) == Jcs(Object(ms))
    decreases ms
  {
    var sorted := Sort(CanonMembers(ms));
    SortSorts(CanonMembers(ms));
    SortOfSorted(sorted);
    SortPieces(sorted);
    assert Sort(Pieces(sorted)) == Pieces(sorted);
    CanonSorts(ms);
    SortPieces(ms);
    SortSorts(ms);
    InBoth(Sort(ms), ms);
    CanonPieces(Sort(ms), ms);
  }

  lemma {:induction false} CanonPieces(ns: seq<Keyed<Json>>, ms: seq<Keyed<Json>>)
    requires forall i | 0 <= i < |ns| :: ns[i] in ms
    ensures Pieces(CanonMembers(ns)) == Pieces(ns)
    decreases ms, 0
  {
    forall i | 0 <= i < |ns| ensures Pieces(CanonMembers(ns))[i] == Pieces(ns)[i] {
      assert ns[i] in ms;
      CanonPrintsSame(ns[i].value);
      CanonMembersAt(ns, i);
      assert Pieces(CanonMembers(ns))[i] == Piece(CanonMembers(ns)[i]) && Pieces(ns)[i] == Piece(ns[i]);
    }
  }

  // ----- the printed text is the text of a syntax tree

  function PlainSpelling(c: Scalar): (sp: Spelling)
    ensures WellSpelt(sp) && Spelt(sp) == Escape(c) && Spells(sp) == c
  {
    if ShortEscape(c).Some? then Short(ShortEscape(c).value)
    else if c < 0x20 then ControlSpelling(c)
    else Raw(c)
  }

  function ControlSpelling(c: Scalar): (sp: Spelling)
    requires c < 0x20
    ensures WellSpelt(sp) && sp.Hex? && sp.digits == [0x30, 0x30, HexDigit(c / 16), HexDigit(c % 16)] && Spells(sp) == c
  {
    var ds := [0x30, 0x30, HexDigit(c / 16), HexDigit(c % 16)];
    assert HexValue(HexDigit(c / 16)) == c / 16 && HexValue(HexDigit(c % 16)) == c % 16;
    Hex(ds)
  }

  function PlainString(s: Str): seq<Spelling> {
    seq(|s|, i requires 0 <= i < |s| => PlainSpelling(s[i]))
  }

  lemma {:induction false} PlainStringIsPlain(s: Str)
    ensures AllSpelt(PlainString(s)) && SpellsAll(PlainString(s)) == s && QuotedText(PlainString(s)) == Quoted(s)
  {
    PlainTextIsEscaped(s);
  }

  lemma {:induction false} PlainTextIsEscaped(s: Str)
    ensures SpeltAll(PlainString(s)) == Escaped(s)
  {
    hide Spelt, Escape;
    if s != [] {
      PlainTextIsEscaped(s[1..]);
      assert PlainString(s)[1..] == PlainString(s[1..]);
    }
  }

  /** The tree of a value written without white space and with only the escapes it needs. */
  function Plain(v: Json): Syntax
    decreases v, 0
  {
    match v
    case Number(t) => Digits(t)
    case String(s) => Quote(PlainString(s))
    case Array(vs) => List(PlainItems(vs), [])
    case Object(ms) => Dict(PlainEntries(ms), [])
    case _ => Word(v)
  }

  function PlainItem(v: Json): Item
    decreases v, 1
  {
    Item([], Plain(v), [])
  }

  function PlainItems(vs: seq<Json>): (items: seq<Item>)
    ensures |items| == |vs|
    decreases vs
  {
    seq(|vs|, i requires 0 <= i < |vs| => PlainItem(vs[i]))
  }

  function PlainEntry(m: Keyed<Json>): Entry
    decreases m
  {
    Entry([], PlainString(m.key), [], PlainItem(m.value))
  }

  function PlainEntries(ms: seq<Keyed<Json>>): (es: seq<Entry>)
    ensures |es| == |ms|
    decreases ms
  {
    seq(|ms|, i requires 0 <= i < |ms| => PlainEntry(ms[i]))
  }

  lemma PlainItemsAt(vs: seq<Json>, i: nat)
    requires i < |vs|
    ensures PlainItems(vs)[i] == Item([], Plain(vs[i]), [])
  {
    assert PlainItems(vs)[i] == PlainItem(vs[i]);
  }

  lemma PlainEntriesAt(ms: seq<Keyed<Json>>, i: nat)
    requires i < |ms|
    ensures PlainEntries(ms)[i] == Entry([], PlainString(ms[i].key), [], Item([], Plain(ms[i].value), []))
  {
    assert PlainEntries(ms)[i] == PlainEntry(ms[i]) && PlainItem(ms[i].value) == Item([], Plain(ms[i].value), []);
  }

  /** A value is what its plain tree means. */
  lemma {:induction false} MeaningOfPlain(v: Json)
    ensures Meaning(Plain(v)) == v
    decreases v
  {
    match v
    case String(s) => PlainStringIsPlain(s);
    case Array(vs) =>
      forall i | 0 <= i < |vs| ensures Meanings(PlainItems(vs))[i] == vs[i] {
        MeaningOfPlain(vs[i]);
        PlainItemsAt(vs, i);
        MeaningsAt(PlainItems(vs), i);
      }
      assert Meanings(PlainItems(vs)) == vs;
    case Object(ms) =>
      forall i | 0 <= i < |ms| ensures Members(PlainEntries(ms))[i] == ms[i] {
        assert ms[i] in ms;
        MeaningOfPlain(ms[i].value);
        PlainStringIsPlain(ms[i].key);
        PlainEntriesAt(ms, i);
        MembersAt(PlainEntries(ms), i);
      }
      assert Members(PlainEntries(ms)) == ms;
    case _ =>
  }

  lemma {:induction false} PlainIsProper(v: Json, n: int)
    requires Good(v, n)
    ensures Proper(Plain(v), n)
    decreases v
  {
    match v
    case String(s) => PlainStringIsPlain(s);
    case Array(vs) =>
      forall i | 0 <= i < |vs| ensures ProperItem(PlainItems(vs)[i], n - 1) {
        PlainIsProper(vs[i], n - 1);
        PlainItemsAt(vs, i);
      }
    case Object(ms) => PlainEntriesAreProper(ms, n);
    case _ =>
  }

  lemma {:induction false} PlainEntriesAreProper(ms: seq<Keyed<Json>>, n: int)
    requires Good(Object(ms), n)
    ensures Proper(Dict(PlainEntries(ms), []), n)
    decreases ms
  {
    var es := PlainEntries(ms);
    forall i | 0 <= i < |ms| ensures ProperEntry(es[i], n - 1) {
      assert ms[i] in ms;
      PlainIsProper(ms[i].value, n - 1);
      PlainStringIsPlain(ms[i].key);
      PlainEntriesAt(ms, i);
    }
    forall i, j | 0 <= i < j < |ms| ensures !SameKey(es[i], es[j]) {
      PlainEntriesAt(ms, i);
      PlainEntriesAt(ms, j);
      PlainStringIsPlain(ms[i].key);
      PlainStringIsPlain(ms[j].key);
    }
  }

  /** What is printed is the text of the plain tree of the canonical form. */
  lemma {:induction false} JcsIsPlain(v: Json)
    requires Jcs(v).Ok?
    ensures Jcs(v).value == Render(Plain(Canon(v)))
    decreases v
  {
    match v
    case String(s) => PlainStringIsPlain(s);
    case Array(vs) =>
      JcsItemsArePlain(vs, 0);
      assert Separator(0) + RenderItems(PlainItems(CanonItems(vs)), 0) == RenderItems(PlainItems(CanonItems(vs)), 0);
      assert [] + RenderItems(PlainItems(CanonItems(vs)), 0) == RenderItems(PlainItems(CanonItems(vs)), 0);
    case Object(ms) => JcsObjectIsPlain(ms);
    case _ =>
  }

  lemma JcsItemsOk(vs: seq<Json>, i: nat)
    requires i < |vs| && JcsItems(vs, i).Ok?
    ensures Jcs(vs[i]).Ok? && JcsItems(vs, i + 1).Ok?
    ensures JcsItems(vs, i).value == Separator(i) + Jcs(vs[i]).value + JcsItems(vs, i + 1).value
  {
    hide Jcs;
  }

  lemma JcsItemsEnd(vs: seq<Json>)
    ensures JcsItems(vs, |vs|) == Ok([0x5D])
    ensures vs == [] ==> RenderItems(PlainItems(CanonItems(vs)), 0) == [0x5D]
  {
  }

  lemma {:induction false} JcsItemsArePlain(vs: seq<Json>, i: nat)
    requires i <= |vs| && JcsItems(vs, i).Ok?
    ensures i < |vs| || i == 0 ==> JcsItems(vs, i).value == Separator(i) + RenderItems(PlainItems(CanonItems(vs)), i)
    ensures i == |vs| ==> JcsItems(vs, i).value == [0x5D]
    decreases vs, |vs| - i
  {
    hide Jcs, Canon, PlainItems, Plain, Render, RenderItem, JcsItems, RenderItems;
    var items := PlainItems(CanonItems(vs));
    if i < |vs| {
      JcsItemsOk(vs, i);
      JcsIsPlain(vs[i]);
      JcsItemsArePlain(vs, i + 1);
      PlainItemsAt(CanonItems(vs), i);
      RenderItemsStep(items, i);
      BareItem(Plain(Canon(vs[i])));
      if i + 1 == |vs| { NoMoreItems(items); }
    } else {
      JcsItemsEnd(vs);
    }
  }

  lemma BareItem(x: Syntax)
    ensures RenderItem(Item([], x, [])) == Render(x)
  {
    hide Render;
    assert Render(x) + [] == Render(x) && [] + Render(x) == Render(x);
  }

  lemma {:induction false} JcsObjectIsPlain(ms: seq<Keyed<Json>>)
    requires Jcs(Object(ms)).Ok?
    ensures Jcs(Object(ms)).value == Render(Plain(Canon(Object(ms))))
    decreases ms
  {
    var ns := Sort(ms);
    SortPieces(ms);
    CanonSorts(ms);
    SortSorts(ms);
    InBoth(ns, ms);
    var es := PlainEntries(CanonMembers(ns));
    JcsMembersArePlain(ns, ms, 0);
    assert Separator(0) + RenderEntries(es, 0) == RenderEntries(es, 0)
           && [] + RenderEntries(es, 0) == RenderEntries(es, 0);
  }

  lemma JoinOk(ns: seq<Keyed<Json>>, i: nat)
    requires i < |ns| && JoinMembers(Pieces(ns), i).Ok?
    ensures Jcs(ns[i].value).Ok? && JoinMembers(Pieces(ns), i + 1).Ok?
    ensures JoinMembers(Pieces(ns), i).value
            == Separator(i) + Quoted(ns[i].key) + [0x3A] + Jcs(ns[i].value).value + JoinMembers(Pieces(ns), i + 1).value
  {
    hide Jcs, Quoted;
    assert Pieces(ns)[i] == Piece(ns[i]);
  }

  lemma JoinEnd(ns: seq<Keyed<Json>>)
    ensures JoinMembers(Pieces(ns), |ns|) == Ok([0x7D])
    ensures ns == [] ==> RenderEntries(PlainEntries(CanonMembers(ns)), 0) == [0x7D]
  {
  }

  lemma {:induction false} JcsMembersArePlain(ns: seq<Keyed<Json>>, ms: seq<Keyed<Json>>, i: nat)
    requires (forall k | 0 <= k < |ns| :: ns[k] in ms) && i <= |ns| && JoinMembers(Pieces(ns), i).Ok?
    ensures i < |ns| || i == 0 ==>
              JoinMembers(Pieces(ns), i).value == Separator(i) + RenderEntries(PlainEntries(CanonMembers(ns)), i)
    ensures i == |ns| ==> JoinMembers(Pieces(ns), i).value == [0x7D]
    decreases ms, 0, |ns| - i
  {
    hide Jcs, Canon, Plain, CanonMembers, PlainEntries, Pieces, Render, RenderEntry, Quoted, JoinMembers,
         RenderEntries;
    var es := PlainEntries(CanonMembers(ns));
    if i < |ns| {
      JoinOk(ns, i);
      assert ns[i] in ms;
      JcsIsPlain(ns[i].value);
      JcsMembersArePlain(ns, ms, i + 1);
      CanonMembersAt(ns, i);
      PlainEntriesAt(CanonMembers(ns), i);
      RenderEntriesStep(es, i);
      BareEntry(ns[i].key, Plain(Canon(ns[i].value)));
      if i + 1 == |ns| { NoMoreEntries(es); }
    } else {
      JoinEnd(ns);
    }
  }

  lemma BareEntry(key: Str, x: Syntax)
    ensures RenderEntry(Entry([], PlainString(key), [], Item([], x, []))) == Quoted(key) + [0x3A] + Render(x)
  {
    hide Render, QuotedText, Quoted;
    PlainStringIsPlain(key);
    BareItem(x);
    assert [] + (Quoted(key) + ([] + ([0x3A] + Render(x)))) == Quoted(key) + [0x3A] + Render(x);
  }

  // ----- the round trip

  lemma {:induction false} CanonIsGood(v: Json, n: int)
    requires Good(v, n)
    ensures Good(Canon(v), n)
    decreases v
  {
    match v
    case Number(t) => if JcsNumber(t).Ok? { NumberOfNumber(t); }
    case Array(vs) =>
      forall i | 0 <= i < |vs| ensures Good(CanonItems(vs)[i], n - 1) { CanonIsGood(vs[i], n - 1); }
    case Object(ms) => CanonObjectIsGood(ms, n);
    case _ =>
  }

  lemma {:induction false} CanonObjectIsGood(ms: seq<Keyed<Json>>, n: int)
    requires Good(Object(ms), n)
    ensures Good(Object(Sort(CanonMembers(ms))), n)
    decreases ms
  {
    var ns := CanonMembers(ms);
    forall i | 0 <= i < |ms| ensures ns[i].key == ms[i].key && Good(ns[i].value, n - 1) {
      assert ms[i] in ms;
      CanonMembersAt(ms, i);
      CanonIsGood(ms[i].value, n - 1);
    }
    SortIsStrict(ns);
    SortSorts(ns);
    InBoth(Sort(ns), ns);
  }

  /** In every object inside the value each key precedes all later ones. */
  ghost predicate KeysAscend(v: Json)
    decreases v
  {
    match v
    case Array(vs) => forall i | 0 <= i < |vs| :: KeysAscend(vs[i])
    case Object(ms) => Increasing(ms) && forall i | 0 <= i < |ms| :: KeysAscend(ms[i].value)
    case _ => true
  }

  lemma {:induction false} CanonAscends(v: Json, n: int)
    requires Good(v, n)
    ensures KeysAscend(Canon(v))
    decreases v, 1
  {
    hide Precedes;
    match v
    case Array(vs) =>
      forall i | 0 <= i < |vs| ensures KeysAscend(CanonItems(vs)[i]) { CanonAscends(vs[i], n - 1); }
    case Object(ms) => CanonObjectAscends(ms, n);
    case _ =>
  }

  lemma {:induction false} CanonObjectAscends(ms: seq<Keyed<Json>>, n: int)
    requires Good(Object(ms), n)
    ensures KeysAscend(Object(Sort(CanonMembers(ms))))
    decreases ms
  {
    hide Precedes, Sort;
    var ns := CanonMembers(ms);
    forall i | 0 <= i < |ms| ensures ns[i].key == ms[i].key && KeysAscend(ns[i].value) {
      assert ms[i] in ms;
      CanonMembersAt(ms, i);
      CanonAscends(ms[i].value, n - 1);
    }
    SortAscends(ns);
    InBoth(Sort(ns), ns);
  }

  /** Parsing the canonical text of a value gives the value back with the keys of every object
      ascending and its integers normalized: for everything the parser returns and the printer accepts. */
  lemma RoundTrip(bs: Bytes, v: Json, t: Bytes)
    requires Parse(bs) == Ok(v) && Jcs(v) == Ok(t)
    ensures Parse(t) == Ok(Canon(v)) && KeysAscend(Canon(v))
  {
    GoodRoundTrip(v, t);
    CanonAscends(v, MAX_DEPTH);
  }

  // ----- what prints

  /** Every number in the value is an integer of at most 53 bits. */
  predicate SafeNumbers(v: Json)
    decreases v
  {
    match v
    case Number(t) => IntegerText(t) && Unsigned(t) != [] && -9007199254740991 <= IntegerValue(t) <= 9007199254740991
    case Array(vs) => forall i | 0 <= i < |vs| :: SafeNumbers(vs[i])
    case Object(ms) => forall i | 0 <= i < |ms| :: SafeMember(ms[i])
    case _ => true
  }

  predicate SafeMember(m: Keyed<Json>)
    decreases m
  {
    SafeNumbers(m.value)
  }

  /** How a number is written, and each error: a text that is not an integer, one outside 64 bits or
      without a digit, and an integer of more than 53 bits. */
  lemma NumberIsWritten(t: Bytes)
    ensures Jcs(Number(t)) ==
              if !IntegerText(t) then Err(FloatForbidden)
              else if Unsigned(t) == [] || IntegerValue(t) < -0x8000_0000_0000_0000 || IntegerValue(t) > 0x7FFF_FFFF_FFFF_FFFF
              then Err(OutsideSupportedRange)
              else if IntegerValue(t) < -0x1F_FFFF_FFFF_FFFF || IntegerValue(t) > 0x1F_FFFF_FFFF_FFFF then Err(UnsafeInteger)
              else Ok(IntegerBytes(IntegerValue(t)))
  {
  }

  /** The three words, as characters. */
  lemma WordsMean()
    ensures |NULL| == |"null"| && forall i | 0 <= i < |NULL| :: NULL[i] == "null"[i] as int
    ensures |TRUE| == |"true"| && forall i | 0 <= i < |TRUE| :: TRUE[i] == "true"[i] as int
    ensures |FALSE| == |"false"| && forall i | 0 <= i < |FALSE| :: FALSE[i] == "false"[i] as int
  {
  }

  lemma {:induction false} ItemsPrintExactly(vs: seq<Json>, i: nat)
    requires i <= |vs|
    ensures JcsItems(vs, i).Ok? <==> forall k | i <= k < |vs| :: Jcs(vs[k]).Ok?
    decreases |vs| - i
  {
    hide Jcs;
    if i < |vs| { ItemsPrintExactly(vs, i + 1); }
  }

  lemma {:induction false} MembersPrintExactly(ps: seq<Keyed<Written>>, i: nat)
    requires i <= |ps|
    ensures JoinMembers(ps, i).Ok? <==> forall k | i <= k < |ps| :: ps[k].value.Ok?
    decreases |ps| - i
  {
    if i < |ps| { MembersPrintExactly(ps, i + 1); }
  }

  lemma ObjectPrintsExactly(ms: seq<Keyed<Json>>)
    ensures Jcs(Object(ms)).Ok? <==> forall k | 0 <= k < |ms| :: Jcs(ms[k].value).Ok?
  {
    var ps := Pieces(ms);
    SortSorts(ps);
    InBoth(Sort(ps), ps);
    InBoth(ps, Sort(ps));
    MembersPrintExactly(Sort(ps), 0);
    hide Sort, JoinMembers;
    forall k | 0 <= k < |ms| ensures ps[k].value == Jcs(ms[k].value) { assert ps[k] == Piece(ms[k]); }
    hide Pieces, Piece;
    if Jcs(Object(ms)).Ok? {
      forall k | 0 <= k < |ms| ensures Jcs(ms[k].value).Ok? {
        assert ps[k] in Sort(ps);
      }
    }
  }

  /** A value prints exactly when every number in it is a safe integer. */
  lemma {:induction false} PrintsExactly(v: Json)
    ensures Jcs(v).Ok? <==> SafeNumbers(v)
    decreases v
  {
    match v
    case Array(vs) =>
      forall i | 0 <= i < |vs| ensures Jcs(vs[i]).Ok? <==> SafeNumbers(vs[i]) { PrintsExactly(vs[i]); }
      ItemsPrintExactly(vs, 0);
    case Object(ms) =>
      forall i | 0 <= i < |ms| ensures Jcs(ms[i].value).Ok? <==> SafeMember(ms[i]) { PrintsExactly(ms[i].value); }
      ObjectPrintsExactly(ms);
    case _ =>
  }

  /** The escape of a character is the shortest of all its spellings, in lower case if hexadecimal. */
  lemma EscapeIsShortest(c: Scalar, sp: Spelling)
    requires WellSpelt(sp) && Spells(sp) == c
    ensures |Escape(c)| <= |Spelt(sp)|
    ensures |Escape(c)| == 6 ==> forall i | 0 <= i < 6 :: !(0x41 <= Escape(c)[i] <= 0x46)
  {
  }

  lemma GoodRoundTrip(v: Json, t: Bytes)
    requires Good(v, MAX_DEPTH) && Jcs(v) == Ok(t)
    ensures Parse(t) == Ok(Canon(v))
  {
    hide ParseWithin, Jcs, Good, Canon, Proper;
    JcsIsPlain(v);
    CanonIsGood(v, MAX_DEPTH);
    PlainIsProper(Canon(v), MAX_DEPTH);
    MeaningOfPlain(Canon(v));
    BareItem(Plain(Canon(v)));
    hide Render, Meaning;
    ProperTextsParse(Item([], Plain(Canon(v)), []), MAX_DEPTH);
  }

  /** Printing what has been parsed from a canonical text gives the same text. */
  lemma ReprintingIsTheIdentity(v: Json, t: Bytes, w: Json)
    requires Good(v, MAX_DEPTH) && Jcs(v) == Ok(t) && Parse(t) == Ok(w)
    ensures Jcs(w) == Ok(t)
  {
    hide Parse, Jcs;
    GoodRoundTrip(v, t);
    CanonPrintsSame(v);
  }
}
