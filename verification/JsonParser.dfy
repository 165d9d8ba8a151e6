/** The recursive-descent parser of src/ledger/json.rs over the UTF-8 bytes of its input: what
    it reads from a position, as functions, and the parser itself, which advances `pos`. */
module JsonParser {
  import opened Ascii
  import opened Common
  import opened Utf8
  import opened JsonValue
  import opened JsonPrinter

  /** What stands at a position, and where it ends. */
  datatype Parsed<+T> = Got(value: T, next: nat) | Bad(error: JsonError)

  const MAX_DEPTH := 64

  /** ASCII white space; section 2 of RFC 8259 does not have the form feed. */
  predicate IsSpace(b: Byte) {
    b == 0x20 || b == 0x09 || b == 0x0A || b == 0x0C || b == 0x0D
  }

  function SkipSpace(bs: Bytes, p: nat): (q: nat)
    requires p <= |bs|
    ensures p <= q <= |bs| && (ValidFrom(bs, p) ==> ValidFrom(bs, q))
    ensures q < |bs| ==> !IsSpace(bs[q])
    decreases |bs| - p
  {
    if p < |bs| && IsSpace(bs[p]) then SkipSpace(bs, p + 1) else p
  }

  // ----- what a parsed value satisfies

  predicate IntegerPart(t: Bytes) {
    t == [0x30] || (t != [] && AllDigits(t) && t[0] != 0x30)
  }

  predicate FractionPart(t: Bytes) {
    t == [] || (|t| > 1 && t[0] == 0x2E && AllDigits(t[1..]))
  }

  predicate ExponentPart(t: Bytes) {
    t == [] ||
    (|t| > 1 && (t[0] == 0x65 || t[0] == 0x45) &&
     var u := if t[1] == 0x2B || t[1] == 0x2D then t[2..] else t[1..];
     u != [] && AllDigits(u))
  }

  /** The number grammar of section 6 of RFC 8259. */
  ghost predicate NumberText(t: Bytes) {
    exists minus: Bytes, i: Bytes, f: Bytes, e: Bytes ::
      NumberOf(minus, i, f, e) && t == minus + i + f + e
  }

  predicate NumberOf(minus: Bytes, i: Bytes, f: Bytes, e: Bytes) {
    (minus == [] || minus == [0x2D]) && IntegerPart(i) && FractionPart(f) && ExponentPart(e)
  }

  /** Nested at most `n` deep, numbers in the grammar, no key twice in one object. */
  ghost predicate Good(v: Json, n: int)
    decreases v
  {
    n > 0 &&
    match v
    case Number(t) => NumberText(t)
    case Array(vs) => forall i | 0 <= i < |vs| :: Good(vs[i], n - 1)
    case Object(ms) => DistinctKeys(ms) && forall i | 0 <= i < |ms| :: Good(ms[i].value, n - 1)
    case _ => true
  }

  // ----- strings

  function Hex4(bs: Bytes, p: nat): (u: nat)
    requires p + 4 <= |bs| && IsHex(bs[p]) && IsHex(bs[p + 1]) && IsHex(bs[p + 2]) && IsHex(bs[p + 3])
    ensures u < 0x10000
  {
    HexValue(bs[p]) * 4096 + HexValue(bs[p + 1]) * 256 + HexValue(bs[p + 2]) * 16 + HexValue(bs[p + 3])
  }

  function PHex(bs: Bytes, p: nat): (r: Parsed<nat>)
    requires p <= |bs|
    ensures r.Got? ==> r.next == p + 4 <= |bs| && r.value < 0x10000 && (ValidFrom(bs, p) ==> ValidFrom(bs, r.next))
    ensures r.Bad? ==> r.error.ShortUnicodeEscape? || r.error.InvalidHex?
  {
    if p + 4 > |bs| || !Boundary(bs, p) || !Boundary(bs, p + 4) then Bad(ShortUnicodeEscape)
    else if !IsHex(bs[p]) || !IsHex(bs[p + 1]) || !IsHex(bs[p + 2]) || !IsHex(bs[p + 3]) then Bad(InvalidHex)
    else
      assert ValidFrom(bs, p) ==> ValidFrom(bs, p + 1);
      assert ValidFrom(bs, p + 1) ==> ValidFrom(bs, p + 2);
      assert ValidFrom(bs, p + 2) ==> ValidFrom(bs, p + 3);
      Got(Hex4(bs, p), p + 4)
  }

  /** `char::from_u32`. */
  function FromU32(v: nat): Option<Scalar> {
    if v < 0xD800 || 0xE000 <= v < 0x110000 then Some(v) else None
  }

  function GotScalar(v: nat, next: nat): Parsed<Scalar> {
    match FromU32(v)
    case Some(c) => Got(c, next)
    case None => Bad(InvalidScalar)
  }

  function PUnicode(bs: Bytes, p: nat): (r: Parsed<Scalar>)
    requires p <= |bs|
    ensures r.Got? ==> p < r.next <= |bs| && (ValidFrom(bs, p) ==> ValidFrom(bs, r.next))
    ensures r.Bad? ==> !r.error.InvalidScalar? && !r.error.InvalidUtf8?
  {
    match PHex(bs, p)
    case Bad(e) => Bad(e)
    case Got(first, q) =>
      if 0xD800 <= first <= 0xDBFF then
        if !At(bs, q, [0x5C, 0x75]) then Bad(UnpairedHigh)
        else
          AtByte(bs, q, [0x5C, 0x75], 0); AtByte(bs, q, [0x5C, 0x75], 1);
          assert ValidFrom(bs, q) ==> ValidFrom(bs, q + 1);
          assert ValidFrom(bs, q + 1) ==> ValidFrom(bs, q + 2);
          match PHex(bs, q + 2)
          case Bad(e) => Bad(e)
          case Got(second, n) =>
            if !(0xDC00 <= second <= 0xDFFF) then Bad(InvalidPair)
            else GotScalar(0x10000 + (first - 0xD800) * 1024 + (second - 0xDC00), n)
      else if 0xDC00 <= first <= 0xDFFF then Bad(UnpairedLow)
      else GotScalar(first, q)
  }

  /** What follows a backslash. */
  function PEscape(bs: Bytes, p: nat): (r: Parsed<Scalar>)
    requires p <= |bs|
    ensures r.Got? ==> p < r.next <= |bs| && (ValidFrom(bs, p) ==> ValidFrom(bs, r.next))
    ensures r.Bad? ==> !r.error.InvalidScalar? && !r.error.InvalidUtf8?
  {
    if p == |bs| then Bad(UnexpectedEnd)
    else match bs[p]
      case 0x22 => Got(0x22, p + 1)
      case 0x5C => Got(0x5C, p + 1)
      case 0x2F => Got(0x2F, p + 1)
      case 0x62 => Got(0x08, p + 1)
      case 0x66 => Got(0x0C, p + 1)
      case 0x6E => Got(0x0A, p + 1)
      case 0x72 => Got(0x0D, p + 1)
      case 0x74 => Got(0x09, p + 1)
      case 0x75 => PUnicode(bs, p + 1)
      case _ => Bad(InvalidEscape)
  }

  /** The rest of a string after its opening quote, `acc` having been read. */
  function PString(bs: Bytes, p: nat, acc: Str): (r: Parsed<Str>)
    requires p <= |bs|
    ensures r.Got? ==> p < r.next <= |bs| && (ValidFrom(bs, p) ==> ValidFrom(bs, r.next))
    ensures r.Bad? ==> !r.error.InvalidScalar? && (ValidFrom(bs, p) ==> !r.error.InvalidUtf8?)
    decreases |bs| - p
  {
    if p == |bs| then Bad(Unterminated)
    else if bs[p] == 0x22 then Got(acc, p + 1)
    else if bs[p] == 0x5C then
      assert ValidFrom(bs, p) ==> ValidFrom(bs, p + 1);
      match PEscape(bs, p + 1)
      case Bad(e) => Bad(e)
      case Got(c, q) => PString(bs, q, acc + [c])
    else if bs[p] < 0x20 then Bad(ControlCharacter)
    else match DecodeAt(bs, p)
      case None => Bad(InvalidUtf8)
      case Some(d) => PString(bs, p + d.width, acc + [d.scalar])
  }

  // ----- numbers

  function SkipDigits(bs: Bytes, p: nat): (q: nat)
    requires p <= |bs|
    ensures p <= q <= |bs| && AllDigits(bs[p..q]) && (q < |bs| ==> !IsDigit(bs[q]))
    ensures ValidFrom(bs, p) ==> ValidFrom(bs, q)
    decreases |bs| - p
  {
    if p < |bs| && IsDigit(bs[p]) then
      var q := SkipDigits(bs, p + 1);
      assert bs[p..q] == [bs[p]] + bs[p + 1..q];
      q
    else p
  }

  function PInteger(bs: Bytes, p: nat): (r: Parsed<()>)
    requires p <= |bs|
    ensures r.Got? ==> p < r.next <= |bs| && IntegerPart(bs[p..r.next]) && (ValidFrom(bs, p) ==> ValidFrom(bs, r.next))
    ensures r.Bad? ==> r.error.LeadingZero? || r.error.InvalidNumber?
  {
    if p < |bs| && bs[p] == 0x30 then
      if p + 1 < |bs| && IsDigit(bs[p + 1]) then Bad(LeadingZero) else Got((), p + 1)
    else if p < |bs| && IsDigit(bs[p]) then
      var q := SkipDigits(bs, p + 1);
      assert bs[p..q] == [bs[p]] + bs[p + 1..q];
      Got((), q)
    else Bad(InvalidNumber)
  }

  function PFraction(bs: Bytes, p: nat): (r: Parsed<()>)
    requires p <= |bs|
    ensures r.Got? ==> p <= r.next <= |bs| && FractionPart(bs[p..r.next]) && (ValidFrom(bs, p) ==> ValidFrom(bs, r.next))
    ensures r.Bad? ==> r.error.InvalidFraction?
  {
    if p < |bs| && bs[p] == 0x2E then
      var q := SkipDigits(bs, p + 1);
      assert bs[p..q][1..] == bs[p + 1..q];
      if q == p + 1 then Bad(InvalidFraction) else Got((), q)
    else Got((), p)
  }

  function PExponent(bs: Bytes, p: nat): (r: Parsed<()>)
    requires p <= |bs|
    ensures r.Got? ==> p <= r.next <= |bs| && ExponentPart(bs[p..r.next]) && (ValidFrom(bs, p) ==> ValidFrom(bs, r.next))
    ensures r.Bad? ==> r.error.InvalidExponent?
  {
    if p < |bs| && (bs[p] == 0x65 || bs[p] == 0x45) then
      var s := if p + 1 < |bs| && (bs[p + 1] == 0x2B || bs[p + 1] == 0x2D) then p + 2 else p + 1;
      assert ValidFrom(bs, p) ==> ValidFrom(bs, p + 1);
      var q := SkipDigits(bs, s);
      if q == s then Bad(InvalidExponent)
      else
        assert bs[p..q][s - p..] == bs[s..q];
        assert bs[p..q][1] == bs[p + 1];
        Got((), q)
    else Got((), p)
  }

  function AfterMinus(bs: Bytes, p: nat): (q: nat)
    requires p <= |bs|
    ensures p <= q <= |bs| && (ValidFrom(bs, p) ==> ValidFrom(bs, q))
    ensures bs[p..q] == [] || bs[p..q] == [0x2D]
  {
    if p < |bs| && bs[p] == 0x2D then p + 1 else p
  }

  lemma NumberParts(bs: Bytes, p: nat, q: nat, i: nat, f: nat, n: nat)
    requires p <= q <= i <= f <= n <= |bs| && NumberOf(bs[p..q], bs[q..i], bs[i..f], bs[f..n])
    ensures NumberText(bs[p..n])
  {
    hide NumberOf;
    assert bs[p..i] == bs[p..q] + bs[q..i];
    assert bs[p..f] == bs[p..i] + bs[i..f];
    assert bs[p..n] == bs[p..f] + bs[f..n];
  }

  function PNumber(bs: Bytes, p: nat): (r: Parsed<Json>)
    requires p <= |bs|
    ensures r.Got? ==> p < r.next <= |bs| && (ValidFrom(bs, p) ==> ValidFrom(bs, r.next))
    ensures r.Got? ==> r.value == Number(bs[p..r.next]) && NumberText(bs[p..r.next])
    ensures r.Bad? ==> !r.error.InvalidScalar? && !r.error.InvalidUtf8?
  {
    var q := AfterMinus(bs, p);
    match PInteger(bs, q)
    case Bad(e) => Bad(e)
    case Got(_, i) =>
      match PFraction(bs, i)
      case Bad(e) => Bad(e)
      case Got(_, f) =>
        match PExponent(bs, f)
        case Bad(e) => Bad(e)
        case Got(_, n) =>
          NumberParts(bs, p, q, i, f, n);
          Got(Number(bs[p..n]), n)
  }

  // ----- values

  function PLiteral(bs: Bytes, p: nat, t: Bytes, v: Json): (r: Parsed<Json>)
    requires p <= |bs| && t in [NULL, TRUE, FALSE]
    ensures r.Got? ==> r.next == p + |t| <= |bs| && r.value == v && (ValidFrom(bs, p) ==> ValidFrom(bs, r.next))
    ensures r.Bad? ==> r.error.InvalidLiteral?
  {
    if At(bs, p, t) then
      AsciiIsValid(bs, p, t);
      Got(v, p + |t|)
    else Bad(InvalidLiteral)
  }

  lemma {:induction false} AsciiIsValid(bs: Bytes, p: nat, t: Bytes)
    requires At(bs, p, t) && forall i | 0 <= i < |t| :: t[i] < 0x80
    ensures ValidFrom(bs, p) ==> ValidFrom(bs, p + |t|)
    decreases |t|
  {
    if t != [] {
      assert t == [t[0]] + t[1..];
      AtSplit(bs, p, [t[0]], t[1..]);
      AtByte(bs, p, [t[0]], 0);
      AsciiIsValid(bs, p + 1, t[1..]);
    }
  }

  predicate HasKey(ms: seq<Keyed<Json>>, key: Str) {
    exists i | 0 <= i < |ms| :: ms[i].key == key
  }

  function PValue(bs: Bytes, p: nat, depth: int): (r: Parsed<Json>)
    requires p <= |bs|
    ensures r.Got? ==> p < r.next <= |bs| && (ValidFrom(bs, p) ==> ValidFrom(bs, r.next))
    ensures r.Got? ==> Good(r.value, MAX_DEPTH - depth)
    ensures r.Bad? ==> !r.error.InvalidScalar? && (ValidFrom(bs, p) ==> !r.error.InvalidUtf8?)
    decreases |bs| - p, 2
  {
    if depth >= MAX_DEPTH then Bad(NestingLimit) else PInner(bs, SkipSpace(bs, p), depth + 1)
  }

  function PInner(bs: Bytes, p: nat, depth: int): (r: Parsed<Json>)
    requires p <= |bs| && depth <= MAX_DEPTH
    ensures r.Got? ==> p < r.next <= |bs| && (ValidFrom(bs, p) ==> ValidFrom(bs, r.next))
    ensures r.Got? ==> Good(r.value, MAX_DEPTH - depth + 1)
    ensures r.Bad? ==> !r.error.InvalidScalar? && (ValidFrom(bs, p) ==> !r.error.InvalidUtf8?)
    decreases |bs| - p, 1
  {
    if p == |bs| then Bad(UnexpectedEnd)
    else
      var b := bs[p];
      assert b < 0x80 && ValidFrom(bs, p) ==> ValidFrom(bs, p + 1);
      if b == 0x6E then PLiteral(bs, p, NULL, Null)
      else if b == 0x74 then PLiteral(bs, p, TRUE, Bool(true))
      else if b == 0x66 then PLiteral(bs, p, FALSE, Bool(false))
      else if b == 0x22 then
        match PString(bs, p + 1, [])
        case Bad(e) => Bad(e)
        case Got(s, q) => Got(String(s), q)
      else if b == 0x5B then PArray(bs, p + 1, depth)
      else if b == 0x7B then PObject(bs, p + 1, depth)
      else if b == 0x2D || IsDigit(b) then PNumber(bs, p)
      else Bad(UnsupportedToken)
  }

  function PArray(bs: Bytes, p: nat, depth: int): (r: Parsed<Json>)
    requires p <= |bs| && depth <= MAX_DEPTH
    ensures r.Got? ==> p < r.next <= |bs| && (ValidFrom(bs, p) ==> ValidFrom(bs, r.next))
    ensures r.Got? ==> Good(r.value, MAX_DEPTH - depth + 1)
    ensures r.Bad? ==> !r.error.InvalidScalar? && (ValidFrom(bs, p) ==> !r.error.InvalidUtf8?)
    decreases |bs| - p, 4
  {
    var q := SkipSpace(bs, p);
    if q < |bs| && bs[q] == 0x5D then Got(Array([]), q + 1) else PItems(bs, q, depth, [])
  }

  function PItems(bs: Bytes, p: nat, depth: int, acc: seq<Json>): (r: Parsed<Json>)
    requires p <= |bs| && depth <= MAX_DEPTH
    ensures r.Got? ==> p < r.next <= |bs| && (ValidFrom(bs, p) ==> ValidFrom(bs, r.next))
    ensures r.Got? ==> r.value.Array?
    ensures r.Got? && (forall i | 0 <= i < |acc| :: Good(acc[i], MAX_DEPTH - depth)) ==> Good(r.value, MAX_DEPTH - depth + 1)
    ensures r.Bad? ==> !r.error.InvalidScalar? && (ValidFrom(bs, p) ==> !r.error.InvalidUtf8?)
    decreases |bs| - p, 3
  {
    match PValue(bs, p, depth)
    case Bad(e) => Bad(e)
    case Got(v, q) =>
      var n := SkipSpace(bs, q);
      if n < |bs| && bs[n] == 0x2C then PItems(bs, n + 1, depth, acc + [v])
      else if n < |bs| && bs[n] == 0x5D then Got(Array(acc + [v]), n + 1)
      else Bad(InvalidArray)
  }

  function PObject(bs: Bytes, p: nat, depth: int): (r: Parsed<Json>)
    requires p <= |bs| && depth <= MAX_DEPTH
    ensures r.Got? ==> p < r.next <= |bs| && (ValidFrom(bs, p) ==> ValidFrom(bs, r.next))
    ensures r.Got? ==> Good(r.value, MAX_DEPTH - depth + 1)
    ensures r.Bad? ==> !r.error.InvalidScalar? && (ValidFrom(bs, p) ==> !r.error.InvalidUtf8?)
    decreases |bs| - p, 5
  {
    var q := SkipSpace(bs, p);
    if q < |bs| && bs[q] == 0x7D then Got(Object([]), q + 1) else PMembers(bs, q, depth, [])
  }

  /** A key and its colon. */
  function PKey(bs: Bytes, p: nat, acc: seq<Keyed<Json>>): (r: Parsed<Str>)
    requires p <= |bs|
    ensures r.Got? ==> p < r.next <= |bs| && !HasKey(acc, r.value) && (ValidFrom(bs, p) ==> ValidFrom(bs, r.next))
    ensures r.Bad? ==> !r.error.InvalidScalar? && (ValidFrom(bs, p) ==> !r.error.InvalidUtf8?)
  {
    var q := SkipSpace(bs, p);
    if !(q < |bs| && bs[q] == 0x22) then Bad(KeyNotString)
    else match PString(bs, q + 1, [])
      case Bad(e) => Bad(e)
      case Got(key, k) =>
        if HasKey(acc, key) then Bad(DuplicateKey)
        else
          var c := SkipSpace(bs, k);
          if !(c < |bs| && bs[c] == 0x3A) then Bad(MissingColon) else Got(key, c + 1)
  }

  function PMember(bs: Bytes, p: nat, depth: int, acc: seq<Keyed<Json>>): (r: Parsed<Keyed<Json>>)
    requires p <= |bs|
    ensures r.Got? ==> p < r.next <= |bs| && !HasKey(acc, r.value.key) && (ValidFrom(bs, p) ==> ValidFrom(bs, r.next))
    ensures r.Got? ==> Good(r.value.value, MAX_DEPTH - depth)
    ensures r.Bad? ==> !r.error.InvalidScalar? && (ValidFrom(bs, p) ==> !r.error.InvalidUtf8?)
    decreases |bs| - p, 3
  {
    match PKey(bs, p, acc)
    case Bad(e) => Bad(e)
    case Got(key, k) =>
      match PValue(bs, k, depth)
      case Bad(e) => Bad(e)
      case Got(v, q) => Got(Keyed(key, v), q)
  }

  lemma StaysDistinct(acc: seq<Keyed<Json>>, m: Keyed<Json>)
    requires !HasKey(acc, m.key)
    ensures DistinctKeys(acc) ==> DistinctKeys(acc + [m])
  {
  }

  function PMembers(bs: Bytes, p: nat, depth: int, acc: seq<Keyed<Json>>): (r: Parsed<Json>)
    requires p <= |bs| && depth <= MAX_DEPTH
    ensures r.Got? ==> p < r.next <= |bs| && (ValidFrom(bs, p) ==> ValidFrom(bs, r.next))
    ensures r.Got? ==> r.value.Object?
    ensures r.Got? && DistinctKeys(acc) && (forall i | 0 <= i < |acc| :: Good(acc[i].value, MAX_DEPTH - depth))
            ==> Good(r.value, MAX_DEPTH - depth + 1)
    ensures r.Bad? ==> !r.error.InvalidScalar? && (ValidFrom(bs, p) ==> !r.error.InvalidUtf8?)
    decreases |bs| - p, 4
  {
    match PMember(bs, p, depth, acc)
    case Bad(e) => Bad(e)
    case Got(m, q) =>
      StaysDistinct(acc, m);
      var n := SkipSpace(bs, q);
      if n < |bs| && bs[n] == 0x2C then PMembers(bs, n + 1, depth, acc + [m])
      else if n < |bs| && bs[n] == 0x7D then Got(Object(acc + [m]), n + 1)
      else Bad(InvalidObject)
  }

  /** The whole input as one value nested at most `limit` deep. */
  function ParseWithin(bs: Bytes, limit: nat): (r: Result<Json, JsonError>)
    ensures r.Ok? ==> Good(r.value, limit)
    ensures r.Err? ==> !r.error.InvalidScalar? && (ValidFrom(bs, 0) ==> !r.error.InvalidUtf8?)
  {
    match PValue(bs, 0, MAX_DEPTH - limit)
    case Bad(e) => Err(e)
    case Got(v, q) => if SkipSpace(bs, q) == |bs| then Ok(v) else Err(TrailingData)
  }

  function Parse(bs: Bytes): (r: Result<Json, JsonError>)
    ensures r.Ok? ==> Good(r.value, 64)
    ensures r.Err? ==> !r.error.InvalidScalar? && (ValidFrom(bs, 0) ==> !r.error.InvalidUtf8?)
  {
    ParseWithin(bs, MAX_DEPTH)
  }
}
