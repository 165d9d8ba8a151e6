/** JSON values as the parser builds them and the printer reads them (src/ledger/json.rs). A
    number keeps its source text; an object keeps its members in source order. */
module JsonValue {
  import opened Ascii
  import opened Common
  import opened Utf8
  import Decimal

  datatype Keyed<+T> = Keyed(key: Str, value: T)

  datatype Json =
    | Null
    | Bool(flag: bool)
    | Number(text: Bytes)
    | String(content: Str)
    | Array(items: seq<Json>)
    | Object(members: seq<Keyed<Json>>)

  datatype JsonError =
    | TrailingData | NestingLimit | UnexpectedEnd | UnsupportedToken | InvalidLiteral
    | InvalidEscape | ControlCharacter | InvalidUtf8 | Unterminated
    | ShortUnicodeEscape | InvalidHex | UnpairedHigh | InvalidPair | UnpairedLow | InvalidScalar
    | InvalidArray | KeyNotString | DuplicateKey | MissingColon | InvalidObject
    | LeadingZero | InvalidNumber | InvalidFraction | InvalidExponent
    | FloatForbidden | OutsideSupportedRange | UnsafeInteger

  predicate DistinctKeys<T>(ms: seq<Keyed<T>>) {
    forall i, j | 0 <= i < j < |ms| :: ms[i].key != ms[j].key
  }

  // ----- integers

  const MAX_SAFE_INTEGER := 9007199254740991
  const I64_LIMIT := 9223372036854775808

  predicate AllDigits(t: Bytes) {
    forall i | 0 <= i < |t| :: IsDigit(t[i])
  }

  function Unsigned(t: Bytes): Bytes {
    if t != [] && t[0] == 0x2D then t[1..] else t
  }

  /** No fraction, exponent or plus sign; note that a lone minus sign passes. */
  predicate IntegerText(t: Bytes) {
    t != [] && AllDigits(Unsigned(t))
  }

  function DigitsOf(t: Bytes): seq<Decimal.Digit>
    requires AllDigits(t)
  {
    seq(|t|, i requires 0 <= i < |t| => t[i] - 0x30)
  }

  function IntegerValue(t: Bytes): int
    requires IntegerText(t)
  {
    var n := Decimal.Value(DigitsOf(Unsigned(t)));
    if t[0] == 0x2D then -(n as int) else n
  }

  /** `str::parse::<i64>` on an integer text. */
  function ParseI64(t: Bytes): Option<int>
    requires IntegerText(t)
  {
    if Unsigned(t) == [] || !(-I64_LIMIT <= IntegerValue(t) < I64_LIMIT) then None else Some(IntegerValue(t))
  }

  function DigitBytes(n: nat): (t: Bytes)
    ensures t != [] && AllDigits(t) && DigitsOf(t) == Decimal.Digits(n)
    ensures t[0] == 0x30 ==> |t| == 1 && n == 0
  {
    var ds := Decimal.Digits(n);
    var t: Bytes := seq(|ds|, i requires 0 <= i < |ds| => 0x30 + ds[i] as int);
    t
  }

  function IntegerBytes(n: int): Bytes {
    if n < 0 then [0x2D] + DigitBytes(-n) else DigitBytes(n)
  }

  /** The printer's text of an integer reads back as that integer. */
  lemma IntegerRoundTrip(n: int)
    ensures IntegerText(IntegerBytes(n)) && Unsigned(IntegerBytes(n)) != [] && IntegerValue(IntegerBytes(n)) == n
  {
    var t := IntegerBytes(n);
    var m: nat := if n < 0 then -n else n;
    assert Unsigned(t) == DigitBytes(m);
    Decimal.ValueOfDigits(m);
  }

  // ----- the order of keys

  predicate LexLess(a: seq<nat>, b: seq<nat>) {
    b != [] && (a == [] || a[0] < b[0] || (a[0] == b[0] && LexLess(a[1..], b[1..])))
  }

  lemma {:induction false} LexTotal(a: seq<nat>, b: seq<nat>)
    ensures !(LexLess(a, b) && LexLess(b, a)) && (LexLess(a, b) || LexLess(b, a) || a == b)
    ensures a == b ==> !LexLess(a, b)
  {
    if a != [] && b != [] && a[0] == b[0] {
      LexTotal(a[1..], b[1..]);
      assert a == [a[0]] + a[1..] && b == [b[0]] + b[1..];
    }
  }

  lemma {:induction false} LexTransitive(a: seq<nat>, b: seq<nat>, c: seq<nat>)
    requires LexLess(a, b) && LexLess(b, c)
    ensures LexLess(a, c)
  {
    if a != [] && a[0] == b[0] == c[0] { LexTransitive(a[1..], b[1..], c[1..]); }
  }

  /** Dictionary order, by its two cases: a proper prefix comes first, and otherwise what is
      smaller where the two first differ. */
  predicate Precedes(a: seq<nat>, b: seq<nat>) {
    a < b || exists k :: 0 <= k < |a| && k < |b| && a[..k] == b[..k] && a[k] < b[k]
  }

  lemma {:induction false} LexIsPrecedes(a: seq<nat>, b: seq<nat>)
    ensures LexLess(a, b) <==> Precedes(a, b)
  {
    if a != [] && b != [] && a[0] == b[0] {
      LexIsPrecedes(a[1..], b[1..]);
      assert a == [a[0]] + a[1..] && b == [b[0]] + b[1..];
      if Precedes(a[1..], b[1..]) && !(a[1..] < b[1..]) {
        var k :| 0 <= k < |a[1..]| && k < |b[1..]| && a[1..][..k] == b[1..][..k] && a[1..][k] < b[1..][k];
        assert a[..k + 1] == [a[0]] + a[1..][..k] && b[..k + 1] == [b[0]] + b[1..][..k];
      }
      if k :| 0 <= k < |a| && k < |b| && a[..k] == b[..k] && a[k] < b[k] {
        assert a[1..][..k - 1] == a[..k][1..] && b[1..][..k - 1] == b[..k][1..];
        assert a[1..][k - 1] < b[1..][k - 1];
      }
    } else if a != [] && b != [] {
      assert a[0] < b[0] ==> a[..0] == b[..0];
      if k :| 0 <= k < |a| && k < |b| && a[..k] == b[..k] && a[k] < b[k] {
        assert k > 0 ==> a[..k][0] == b[..k][0];
      }
    }
  }

  /** `utf16_cmp`: keys are compared by their UTF-16 code units. */
  predicate KeyLess(a: Str, b: Str) {
    LexLess(Utf16(a), Utf16(b))
  }

  /** A key comes before another exactly when its units are a proper prefix of the other's, or are
      smaller at the first place where the two differ. */
  lemma KeyOrderMeans(a: Str, b: Str)
    ensures KeyLess(a, b) <==> Precedes(Utf16(a), Utf16(b))
  {
    LexIsPrecedes(Utf16(a), Utf16(b));
  }

  lemma {:induction false} LowCharactersAreUnits(s: Str)
    requires forall i | 0 <= i < |s| :: s[i] < 0xD800
    ensures Utf16(s) == s
  {
    if s != [] {
      LowCharactersAreUnits(s[1..]);
      assert s == [s[0]] + s[1..];
    }
  }

  /** Where all characters are below the surrogates, that is the order of the code points. */
  lemma CodePointsDecide(a: Str, b: Str)
    requires (forall i | 0 <= i < |a| :: a[i] < 0xD800) && forall i | 0 <= i < |b| :: b[i] < 0xD800
    ensures KeyLess(a, b) <==> Precedes(a, b)
  {
    LowCharactersAreUnits(a);
    LowCharactersAreUnits(b);
    KeyOrderMeans(a, b);
  }

  /** It is a strict total order on strings: no two different keys compare equal. */
  lemma KeyOrderIsTotal(a: Str, b: Str)
    ensures !(KeyLess(a, b) && KeyLess(b, a)) && !KeyLess(a, a)
    ensures KeyLess(a, b) || KeyLess(b, a) || a == b
  {
    LexTotal(Utf16(a), Utf16(b));
    LexTotal(Utf16(a), Utf16(a));
    if Utf16(a) == Utf16(b) { Utf16IsInjective(a, b); }
  }

  lemma KeyOrderIsTransitive(a: Str, b: Str, c: Str)
    requires KeyLess(a, b) && KeyLess(b, c)
    ensures KeyLess(a, c)
  {
    LexTransitive(Utf16(a), Utf16(b), Utf16(c));
  }

  // ----- sorting members: the library's stable sort, as insertion

  function Insert<T>(m: Keyed<T>, ms: seq<Keyed<T>>): seq<Keyed<T>> {
    if ms == [] || !KeyLess(ms[0].key, m.key) then [m] + ms else [ms[0]] + Insert(m, ms[1..])
  }

  function Sort<T>(ms: seq<Keyed<T>>): seq<Keyed<T>> {
    if ms == [] then [] else Insert(ms[0], Sort(ms[1..]))
  }

  predicate Sorted<T>(ms: seq<Keyed<T>>) {
    forall i, j | 0 <= i < j < |ms| :: !KeyLess(ms[j].key, ms[i].key)
  }

  predicate StrictlySorted<T>(ms: seq<Keyed<T>>) {
    forall i, j | 0 <= i < j < |ms| :: KeyLess(ms[i].key, ms[j].key)
  }

  lemma {:induction false} InsertPermutes<T>(m: Keyed<T>, ms: seq<Keyed<T>>)
    ensures multiset(Insert(m, ms)) == multiset([m] + ms) && |Insert(m, ms)| == |ms| + 1
  {
    hide KeyLess;
    if ms != [] && KeyLess(ms[0].key, m.key) {
      assert ms == [ms[0]] + ms[1..];
      InsertPermutes(m, ms[1..]);
    }
  }

  lemma {:induction false} InsertKeepsOrder<T>(m: Keyed<T>, ms: seq<Keyed<T>>)
    requires Sorted(ms)
    ensures Sorted(Insert(m, ms))
  {
    hide KeyLess;
    if ms != [] && KeyLess(ms[0].key, m.key) {
      InsertKeepsOrder(m, ms[1..]);
      var r := Insert(m, ms[1..]);
      InsertPermutes(m, ms[1..]);
      InBoth(r, [m] + ms[1..]);
      forall i | 0 <= i < |r| ensures !KeyLess(r[i].key, ms[0].key) {
        KeyOrderIsTotal(ms[0].key, m.key);
        assert r[i] in [m] + ms[1..];
      }
    } else if ms != [] {
      forall j | 0 <= j < |ms| ensures !KeyLess(ms[j].key, m.key) {
        KeyOrderIsTotal(ms[0].key, ms[j].key);
        if KeyLess(ms[0].key, ms[j].key) && KeyLess(ms[j].key, m.key) {
          KeyOrderIsTransitive(ms[0].key, ms[j].key, m.key);
        }
      }
    }
  }

  /** Sorting permutes the members and puts them in order. */
  lemma {:induction false} SortSorts<T>(ms: seq<Keyed<T>>)
    ensures multiset(Sort(ms)) == multiset(ms) && Sorted(Sort(ms)) && |Sort(ms)| == |ms|
  {
    if ms != [] {
      assert ms == [ms[0]] + ms[1..];
      SortSorts(ms[1..]);
      InsertPermutes(ms[0], Sort(ms[1..]));
      InsertKeepsOrder(ms[0], Sort(ms[1..]));
    }
  }

  lemma InBoth<T>(ms: seq<Keyed<T>>, ns: seq<Keyed<T>>)
    requires multiset(ms) == multiset(ns)
    ensures forall i | 0 <= i < |ms| :: ms[i] in ns
  {
    forall i | 0 <= i < |ms| ensures ms[i] in ns {
      assert ms[i] in multiset(ns);
    }
  }

  lemma SameLength<T>(ms: seq<Keyed<T>>, ns: seq<Keyed<T>>)
    requires multiset(ms) == multiset(ns)
    ensures |ms| == |ns|
  {
    assert |multiset(ms)| == |ms| && |multiset(ns)| == |ns|;
  }

  lemma Twice<T>(ns: seq<T>, i: nat, j: nat)
    requires i < j < |ns| && ns[i] == ns[j]
    ensures multiset(ns)[ns[i]] >= 2
  {
    assert ns == ns[..i] + [ns[i]] + ns[i + 1..j] + [ns[j]] + ns[j + 1..];
  }

  lemma Once<T>(ms: seq<Keyed<T>>, m: Keyed<T>)
    requires DistinctKeys(ms)
    ensures multiset(ms)[m] <= 1
  {
    if m in ms {
      var k :| 0 <= k < |ms| && ms[k] == m;
      assert ms == ms[..k] + [m] + ms[k + 1..];
      assert m !in ms[..k] && m !in ms[k + 1..];
    }
  }

  /** Distinct keys survive reordering. */
  lemma DistinctInAnyOrder<T>(ms: seq<Keyed<T>>, ns: seq<Keyed<T>>)
    requires multiset(ms) == multiset(ns) && DistinctKeys(ms)
    ensures DistinctKeys(ns)
  {
    InBoth(ns, ms);
    forall i, j | 0 <= i < j < |ns| ensures ns[i].key != ns[j].key {
      Once(ms, ns[i]);
      assert ns[i] != ns[j] by { if ns[i] == ns[j] { Twice(ns, i, j); } }
    }
  }

  lemma SortIsStrict<T>(ms: seq<Keyed<T>>)
    requires DistinctKeys(ms)
    ensures StrictlySorted(Sort(ms)) && DistinctKeys(Sort(ms))
  {
    SortSorts(ms);
    DistinctInAnyOrder(ms, Sort(ms));
    var r := Sort(ms);
    forall i, j | 0 <= i < j < |r| ensures KeyLess(r[i].key, r[j].key) {
      KeyOrderIsTotal(r[i].key, r[j].key);
    }
  }

  /** No member stands after one whose key its own precedes. */
  ghost predicate InKeyOrder<T>(ms: seq<Keyed<T>>) {
    forall i, j | 0 <= i < j < |ms| :: !Precedes(Utf16(ms[j].key), Utf16(ms[i].key))
  }

  ghost predicate Increasing<T>(ms: seq<Keyed<T>>) {
    forall i, j | 0 <= i < j < |ms| :: Precedes(Utf16(ms[i].key), Utf16(ms[j].key))
  }

  /** What sorting does: it permutes the members, puts none after one it precedes, and if no key
      occurs twice every key precedes all later ones. */
  lemma SortAscends<T>(ms: seq<Keyed<T>>)
    ensures multiset(Sort(ms)) == multiset(ms) && InKeyOrder(Sort(ms))
    ensures DistinctKeys(ms) ==> Increasing(Sort(ms))
  {
    hide Sort, KeyLess, Precedes;
    SortSorts(ms);
    if DistinctKeys(ms) { SortIsStrict(ms); }
    var r := Sort(ms);
    forall i, j | 0 <= i < j < |r|
      ensures !Precedes(Utf16(r[j].key), Utf16(r[i].key))
      ensures DistinctKeys(ms) ==> Precedes(Utf16(r[i].key), Utf16(r[j].key))
    {
      KeyOrderMeans(r[i].key, r[j].key);
      KeyOrderMeans(r[j].key, r[i].key);
    }
  }

  /** There is one strictly sorted arrangement of given members. */
  lemma {:induction false} OneStrictOrder<T>(ms: seq<Keyed<T>>, ns: seq<Keyed<T>>)
    requires StrictlySorted(ms) && StrictlySorted(ns) && multiset(ms) == multiset(ns)
    ensures ms == ns
  {
    SameLength(ms, ns);
    if ms != [] {
      SameFirst(ms, ns);
      assert ms == [ms[0]] + ms[1..] && ns == [ns[0]] + ns[1..];
      assert multiset(ms[1..]) == multiset(ms) - multiset{ms[0]};
      assert multiset(ns[1..]) == multiset(ns) - multiset{ns[0]};
      OneStrictOrder(ms[1..], ns[1..]);
    }
  }

  lemma SameFirst<T>(ms: seq<Keyed<T>>, ns: seq<Keyed<T>>)
    requires StrictlySorted(ms) && StrictlySorted(ns) && multiset(ms) == multiset(ns) && ms != [] && ns != []
    ensures ms[0] == ns[0]
  {
    InBoth(ms, ns);
    InBoth(ns, ms);
    var i :| 0 <= i < |ns| && ns[i] == ms[0];
    var j :| 0 <= j < |ms| && ms[j] == ns[0];
    KeyOrderIsTotal(ms[0].key, ns[0].key);
  }

  /** Sorting what is already in order changes nothing. */
  lemma {:induction false} SortOfSorted<T>(ms: seq<Keyed<T>>)
    requires Sorted(ms)
    ensures Sort(ms) == ms
  {
    hide KeyLess;
    if ms != [] {
      SortOfSorted(ms[1..]);
      assert |ms| > 1 ==> !KeyLess(ms[1].key, ms[0].key);
      assert ms == [ms[0]] + ms[1..];
    }
  }

  function MapValues<T, U>(f: T -> U, ms: seq<Keyed<T>>): seq<Keyed<U>> {
    seq(|ms|, i requires 0 <= i < |ms| => Keyed(ms[i].key, f(ms[i].value)))
  }

  lemma {:induction false} InsertCommutes<T, U>(f: T -> U, m: Keyed<T>, ms: seq<Keyed<T>>)
    ensures Insert(Keyed(m.key, f(m.value)), MapValues(f, ms)) == MapValues(f, Insert(m, ms))
  {
    hide KeyLess;
    if ms != [] && KeyLess(ms[0].key, m.key) {
      InsertCommutes(f, m, ms[1..]);
      assert MapValues(f, ms)[1..] == MapValues(f, ms[1..]);
      assert MapValues(f, [ms[0]] + Insert(m, ms[1..])) == [MapValues(f, ms)[0]] + MapValues(f, Insert(m, ms[1..]));
    } else {
      assert MapValues(f, [m] + ms) == [Keyed(m.key, f(m.value))] + MapValues(f, ms);
    }
  }

  /** Sorting looks only at the keys: it commutes with any change of the values. */
  lemma {:induction false} SortCommutes<T, U>(f: T -> U, ms: seq<Keyed<T>>)
    ensures Sort(MapValues(f, ms)) == MapValues(f, Sort(ms))
  {
    hide Insert;
    if ms != [] {
      SortCommutes(f, ms[1..]);
      assert MapValues(f, ms)[1..] == MapValues(f, ms[1..]);
      InsertCommutes(f, ms[0], Sort(ms[1..]));
    }
  }
}
