/** The canonical printer of src/ledger/json.rs (RFC 8785, integers only): what it writes, as
    a function, and the printer itself, which pushes onto one output buffer. */
module JsonPrinter {
  import opened Ascii
  import opened Common
  import opened Utf8
  import opened JsonValue

  type Written = Result<Bytes, JsonError>

  /** The letter of a two-character escape, if the character has one. */
  function ShortEscape(c: Scalar): Option<Byte> {
    if c == 0x22 || c == 0x5C then Some(c)
    else if c == 0x08 then Some(0x62)
    else if c == 0x09 then Some(0x74)
    else if c == 0x0A then Some(0x6E)
    else if c == 0x0C then Some(0x66)
    else if c == 0x0D then Some(0x72)
    else None
  }

  function Escape(c: Scalar): (bs: Bytes)
    ensures bs != [] && !Continuation(bs[0])
  {
    if ShortEscape(c).Some? then [0x5C, ShortEscape(c).value]
    else if c < 0x20 then [0x5C, 0x75, 0x30, 0x30, HexDigit(c / 16), HexDigit(c % 16)]
    else Encode(c)
  }

  function Escaped(s: Str): Bytes {
    if s == [] then [] else Escape(s[0]) + Escaped(s[1..])
  }

  function Quoted(s: Str): Bytes {
    [0x22] + Escaped(s) + [0x22]
  }

  const NULL: Bytes := [0x6E, 0x75, 0x6C, 0x6C]
  const TRUE: Bytes := [0x74, 0x72, 0x75, 0x65]
  const FALSE: Bytes := [0x66, 0x61, 0x6C, 0x73, 0x65]

  function JcsNumber(t: Bytes): Written {
    if !IntegerText(t) then Err(FloatForbidden)
    else match ParseI64(t)
      case None => Err(OutsideSupportedRange)
      case Some(n) =>
        if -MAX_SAFE_INTEGER <= n <= MAX_SAFE_INTEGER then Ok(IntegerBytes(n)) else Err(UnsafeInteger)
  }

  function Separator(i: nat): Bytes {
    if i == 0 then [] else [0x2C]
  }

  /** What has been written, or the error that stopped the writing. */
  function Then(first: Bytes, rest: Written): Written {
    match rest
    case Ok(t) => Ok(first + t)
    case Err(e) => Err(e)
  }

  lemma ThenThen(a: Bytes, b: Bytes, rest: Written)
    ensures Then(a, Then(b, rest)) == Then(a + b, rest)
  {
    if rest.Ok? { assert a + (b + rest.value) == a + b + rest.value; }
  }

  function Jcs(v: Json): Written
    decreases v
  {
    match v
    case Null => Ok(NULL)
    case Bool(flag) => Ok(if flag then TRUE else FALSE)
    case Number(t) => JcsNumber(t)
    case String(s) => Ok(Quoted(s))
    case Array(vs) => Then([0x5B], JcsItems(vs, 0))
    case Object(ms) => Then([0x7B], JoinMembers(Sort(Pieces(ms)), 0))
  }

  /** The items from `i` on, with their commas and the closing bracket. */
  function JcsItems(vs: seq<Json>, i: nat): Written
    requires i <= |vs|
    decreases vs, |vs| - i
  {
    if i == |vs| then Ok([0x5D])
    else match Jcs(vs[i])
      case Err(e) => Err(e)
      case Ok(t) => Then(Separator(i) + t, JcsItems(vs, i + 1))
  }

  function Piece(m: Keyed<Json>): Keyed<Written>
    decreases m
  {
    Keyed(m.key, Jcs(m.value))
  }

  function Pieces(ms: seq<Keyed<Json>>): (ps: seq<Keyed<Written>>)
    ensures |ps| == |ms|
    decreases ms
  {
    seq(|ms|, i requires 0 <= i < |ms| => Piece(ms[i]))
  }

  function JoinMembers(ps: seq<Keyed<Written>>, i: nat): Written
    requires i <= |ps|
    decreases |ps| - i
  {
    if i == |ps| then Ok([0x7D])
    else match ps[i].value
      case Err(e) => Err(e)
      case Ok(t) => Then(Separator(i) + Quoted(ps[i].key) + [0x3A] + t, JoinMembers(ps, i + 1))
  }

  lemma PiecesAreMapped(ms: seq<Keyed<Json>>)
    ensures Pieces(ms) == MapValues(Jcs, ms)
  {
    forall i | 0 <= i < |ms| ensures Pieces(ms)[i] == MapValues(Jcs, ms)[i] {
      assert Pieces(ms)[i] == Piece(ms[i]);
    }
  }

  /** Printing sorted members one by one is printing the sorted pieces. */
  lemma SortPieces(ms: seq<Keyed<Json>>)
    ensures Sort(Pieces(ms)) == Pieces(Sort(ms))
  {
    PiecesAreMapped(ms);
    PiecesAreMapped(Sort(ms));
    SortCommutes(Jcs, ms);
  }

  /** The text of an object lays its members out in key order. */
  ghost predicate LaidOut(ms: seq<Keyed<Json>>, t: Bytes) {
    exists ns: seq<Keyed<Json>> ::
      multiset(ns) == multiset(ms) && InKeyOrder(ns) && Then([0x7B], JoinMembers(Pieces(ns), 0)) == Ok(t)
  }

  lemma ObjectIsLaidOut(ms: seq<Keyed<Json>>)
    requires Jcs(Object(ms)).Ok?
    ensures LaidOut(ms, Jcs(Object(ms)).value)
  {
    hide Sort, Pieces, JoinMembers, InKeyOrder;
    SortPieces(ms);
    SortAscends(ms);
  }

  // ----- the printer

  /** A growing text, as `String` is. */
  class Buffer {
    var text: Bytes

    constructor ()
      ensures text == []
    {
      text := [];
    }

    method Push(b: Byte)
      modifies this
      ensures text == old(text) + [b]
    {
      text := text + [b];
    }

    method PushAll(bs: Bytes)
      modifies this
      ensures text == old(text) + bs
    {
      text := text + bs;
    }
  }

  method WriteString(s: Str, output: Buffer)
    modifies output
    ensures output.text == old(output.text) + Quoted(s)
  {
    hide Escape;
    output.Push(0x22);
    for i := 0 to |s|
      invariant output.text + Escaped(s[i..]) == old(output.text) + [0x22] + Escaped(s)
    {
      ghost var before := output.text;
      assert s[i..][1..] == s[i + 1..];
      WriteCharacter(s[i], output);
      assert output.text + Escaped(s[i + 1..]) == before + Escaped(s[i..]);
    }
    assert s[|s|..] == [] && output.text + [] == output.text;
    output.Push(0x22);
    assert output.text == old(output.text) + ([0x22] + Escaped(s) + [0x22]);
  }

  method WriteCharacter(c: Scalar, output: Buffer)
    modifies output
    ensures output.text == old(output.text) + Escape(c)
  {
    match c
    case 0x22 => output.PushAll([0x5C, 0x22]);
    case 0x5C => output.PushAll([0x5C, 0x5C]);
    case 0x08 => output.PushAll([0x5C, 0x62]);
    case 0x09 => output.PushAll([0x5C, 0x74]);
    case 0x0A => output.PushAll([0x5C, 0x6E]);
    case 0x0C => output.PushAll([0x5C, 0x66]);
    case 0x0D => output.PushAll([0x5C, 0x72]);
    case _ =>
      if c <= 0x1F {
        output.PushAll([0x5C, 0x75, 0x30, 0x30, HexDigit(c / 16), HexDigit(c % 16)]);
      } else {
        output.PushAll(Encode(c));
      }
  }

  /** The buffer with the rest of the output still to come. */
  ghost function Finally(output: Buffer, rest: Written): Written
    reads output
  {
    Then(output.text, rest)
  }

  method WriteJcs(v: Json, output: Buffer) returns (r: Result<(), JsonError>)
    modifies output
    ensures match Jcs(v)
            case Ok(t) => r == Ok(()) && output.text == old(output.text) + t
            case Err(e) => r == Err(e)
    ensures v.Object? && r.Ok? ==> exists t :: LaidOut(v.members, t) && output.text == old(output.text) + t
    decreases v, 0
  {
    hide LaidOut;
    if v.Object? && Jcs(v).Ok? { ObjectIsLaidOut(v.members); }
    match v
    case Null => output.PushAll(NULL); r := Ok(());
    case Bool(true) => output.PushAll(TRUE); r := Ok(());
    case Bool(false) => output.PushAll(FALSE); r := Ok(());
    case Number(t) =>
      if !IntegerText(t) { return Err(FloatForbidden); }
      var number := ParseI64(t);
      if number.None? { return Err(OutsideSupportedRange); }
      if !(-MAX_SAFE_INTEGER <= number.value <= MAX_SAFE_INTEGER) { return Err(UnsafeInteger); }
      output.PushAll(IntegerBytes(number.value));
      r := Ok(());
    case String(s) => WriteString(s, output); r := Ok(());
    case Array(vs) => r := WriteItems(vs, output);
    case Object(ms) => r := WriteMembers(ms, output);
  }

  method WriteItems(vs: seq<Json>, output: Buffer) returns (r: Result<(), JsonError>)
    modifies output
    ensures match Then([0x5B], JcsItems(vs, 0))
            case Ok(t) => r == Ok(()) && output.text == old(output.text) + t
            case Err(e) => r == Err(e)
    decreases vs, 1
  {
    hide Jcs;
    ghost var goal := Then(output.text + [0x5B], JcsItems(vs, 0));
    output.Push(0x5B);
    for i := 0 to |vs|
      invariant Finally(output, JcsItems(vs, i)) == goal
    {
      ghost var prior := output.text;
      if i != 0 { output.Push(0x2C); }
      var item := WriteJcs(vs[i], output);
      if item.Err? { return Err(item.error); }
      assert output.text == prior + (Separator(i) + Jcs(vs[i]).value);
      ThenThen(prior, Separator(i) + Jcs(vs[i]).value, JcsItems(vs, i + 1));
    }
    output.Push(0x5D);
    r := Ok(());
  }

  method WriteMember(m: Keyed<Json>, output: Buffer) returns (r: Result<(), JsonError>)
    modifies output
    ensures match Jcs(m.value)
            case Ok(t) => r == Ok(()) && output.text == old(output.text) + (Quoted(m.key) + [0x3A] + t)
            case Err(e) => r == Err(e)
    decreases m, 1
  {
    hide Quoted, Jcs;
    WriteString(m.key, output);
    output.Push(0x3A);
    r := WriteJcs(m.value, output);
  }

  method WriteMembers(ms: seq<Keyed<Json>>, output: Buffer) returns (r: Result<(), JsonError>)
    modifies output
    ensures match Then([0x7B], JoinMembers(Sort(Pieces(ms)), 0))
            case Ok(t) => r == Ok(()) && output.text == old(output.text) + t
            case Err(e) => r == Err(e)
    decreases ms, 3
  {
    hide Pieces, Sort, JoinMembers;
    var ordered := Sort(ms);
    SortPieces(ms);
    SortSorts(ms);
    InBoth(ordered, ms);
    ghost var members := JoinMembers(Pieces(ordered), 0);
    output.Push(0x7B);
    ThenThen(old(output.text), [0x7B], members);
    r := WriteOrdered(ordered, ms, output);
  }

  method WriteOrdered(ordered: seq<Keyed<Json>>, ghost ms: seq<Keyed<Json>>, output: Buffer)
      returns (r: Result<(), JsonError>)
    requires forall i | 0 <= i < |ordered| :: ordered[i] in ms
    modifies output
    ensures match JoinMembers(Pieces(ordered), 0)
            case Ok(t) => r == Ok(()) && output.text == old(output.text) + t
            case Err(e) => r == Err(e)
    decreases ms, 2
  {
    hide Jcs, Quoted;
    ghost var ps := Pieces(ordered);
    ghost var goal := Then(output.text, JoinMembers(ps, 0));
    for i := 0 to |ordered|
      invariant Finally(output, JoinMembers(ps, i)) == goal
    {
      ghost var prior := output.text;
      assert ps[i] == Piece(ordered[i]);
      if i != 0 { output.Push(0x2C); }
      var item := WriteMember(ordered[i], output);
      if item.Err? {
        assert JoinMembers(ps, i) == Err(item.error);
        return Err(item.error);
      }
      ghost var member := Separator(i) + Quoted(ps[i].key) + [0x3A] + ps[i].value.value;
      assert output.text == prior + member;
      ThenThen(prior, member, JoinMembers(ps, i + 1));
    }
    output.Push(0x7D);
    r := Ok(());
  }

  /** `jcs`: print into a fresh buffer. */
  method Print(v: Json) returns (r: Written)
    ensures r == Jcs(v)
    ensures v.Object? && r.Ok? ==> LaidOut(v.members, r.value)
  {
    hide LaidOut;
    if v.Object? && Jcs(v).Ok? { ObjectIsLaidOut(v.members); }
    var output := new Buffer();
    var done := WriteJcs(v, output);
    assert Jcs(v).Ok? ==> [] + Jcs(v).value == Jcs(v).value;
    r := if done.Ok? then Ok(output.text) else Err(done.error);
  }
}
