/** The parser of src/ledger/json.rs as the object it is: one input, a position and a depth
    that its methods advance. Each method reads exactly what the functions of JsonParser say,
    and cuts the input only at character boundaries, where cutting cannot fail. */
module JsonReader {
  import opened Ascii
  import opened Common
  import opened Utf8
  import opened JsonValue
  import opened JsonPrinter
  import opened JsonParser

  /** `&input[from..to]`, which panics off a character boundary. */
  function Slice(input: Bytes, from: nat, to: nat): Bytes
    requires from <= to <= |input| && Boundary(input, from) && Boundary(input, to)
  {
    input[from..to]
  }

  predicate StartsWith(t: Bytes, prefix: Bytes) {
    prefix <= t
  }

  lemma StartsWithIsAt(input: Bytes, p: nat, t: Bytes)
    requires p <= |input|
    ensures StartsWith(input[p..], t) <==> At(input, p, t)
  {
    if p + |t| <= |input| {
      assert input[p..][..|t|] == input[p..p + |t|];
    }
  }

  class Parser {
    const input: Bytes
    var pos: nat
    var depth: nat

    /** The position is where a character starts, or the end. */
    ghost predicate Valid()
      reads this
    {
      pos <= |input| && ValidFrom(input, pos)
    }

    /** The call read `r` from where it began. */
    ghost predicate Reads<T>(p: Parsed<T>, r: Result<T, JsonError>)
      reads this
    {
      match p
      case Got(v, q) => r == Ok(v) && pos == q && Valid()
      case Bad(e) => r == Err(e)
    }

    constructor (text: Bytes)
      requires ValidFrom(text, 0)
      ensures input == text && pos == 0 && depth == 0 && Valid()
    {
      input, pos, depth := text, 0, 0;
    }

    method Ws()
      requires Valid()
      modifies this`pos
      ensures pos == SkipSpace(input, old(pos)) && Valid()
    {
      while pos < |input|
        invariant Valid() && SkipSpace(input, pos) == SkipSpace(input, old(pos))
      {
        if !IsSpace(input[pos]) { break; }
        pos := pos + 1;
      }
    }

    method PeekByte() returns (r: Result<Byte, JsonError>)
      requires Valid()
      ensures r == if pos < |input| then Ok(input[pos]) else Err(UnexpectedEnd)
    {
      r := if pos < |input| then Ok(input[pos]) else Err(UnexpectedEnd);
    }

    method Literal(t: Bytes, v: Json) returns (r: Result<Json, JsonError>)
      requires Valid() && t in [NULL, TRUE, FALSE]
      modifies this`pos
      ensures Reads(PLiteral(input, old(pos), t, v), r)
    {
      ValidIsBoundary(input, pos);
      StartsWithIsAt(input, pos, t);
      if StartsWith(Slice(input, pos, |input|), t) {
        AsciiIsValid(input, pos, t);
        pos := pos + |t|;
        r := Ok(v);
      } else {
        r := Err(InvalidLiteral);
      }
    }

    method HexU16() returns (r: Result<nat, JsonError>)
      requires Valid()
      modifies this`pos
      ensures Reads(PHex(input, old(pos)), r)
    {
      var end := pos + 4;
      if end > |input| || !Boundary(input, pos) || !Boundary(input, end) { return Err(ShortUnicodeEscape); }
      var text := Slice(input, pos, end);
      assert text[0] == input[pos] && text[1] == input[pos + 1] && text[2] == input[pos + 2] && text[3] == input[pos + 3];
      if exists i | 0 <= i < |text| :: !IsHex(text[i]) { return Err(InvalidHex); }
      assert forall i | 0 <= i < 4 :: IsHex(text[i]);
      r := Ok(Hex4(input, pos));
      pos := end;
    }

    method UnicodeEscape() returns (r: Result<Scalar, JsonError>)
      requires Valid()
      modifies this`pos
      ensures Reads(PUnicode(input, old(pos)), r)
    {
      hide DecodeAt, HexValue, PHex;
      var first := HexU16();
      if first.Err? { return Err(first.error); }
      var high := first.value;
      if 0xD800 <= high <= 0xDBFF {
        ValidIsBoundary(input, pos);
        StartsWithIsAt(input, pos, [0x5C, 0x75]);
        if !StartsWith(Slice(input, pos, |input|), [0x5C, 0x75]) { return Err(UnpairedHigh); }
        AsciiIsValid(input, pos, [0x5C, 0x75]);
        pos := pos + 2;
        var second := HexU16();
        if second.Err? { return Err(second.error); }
        var low := second.value;
        if !(0xDC00 <= low <= 0xDFFF) { return Err(InvalidPair); }
        var c := FromU32(0x10000 + (high - 0xD800) * 1024 + (low - 0xDC00));
        r := if c.Some? then Ok(c.value) else Err(InvalidScalar);
      } else if 0xDC00 <= high <= 0xDFFF {
        r := Err(UnpairedLow);
      } else {
        var c := FromU32(high);
        r := if c.Some? then Ok(c.value) else Err(InvalidScalar);
      }
    }

    method Escaped() returns (r: Result<Scalar, JsonError>)
      requires Valid()
      modifies this`pos
      ensures Reads(PEscape(input, old(pos)), r)
    {
      var letter := PeekByte();
      if letter.Err? { return Err(letter.error); }
      pos := pos + 1;
      match letter.value
      case 0x22 => r := Ok(0x22);
      case 0x5C => r := Ok(0x5C);
      case 0x2F => r := Ok(0x2F);
      case 0x62 => r := Ok(0x08);
      case 0x66 => r := Ok(0x0C);
      case 0x6E => r := Ok(0x0A);
      case 0x72 => r := Ok(0x0D);
      case 0x74 => r := Ok(0x09);
      case 0x75 => r := UnicodeEscape();
      case _ => r := Err(InvalidEscape);
    }

    method Str() returns (r: Result<Str, JsonError>)
      requires Valid() && pos < |input| && input[pos] == 0x22
      modifies this`pos
      ensures Reads(PString(input, old(pos) + 1, []), r)
    {
      pos := pos + 1;
      var output: Str := [];
      while pos < |input|
        invariant Valid() && old(pos) < pos
        invariant PString(input, pos, output) == PString(input, old(pos) + 1, [])
        decreases |input| - pos
      {
        var byte := input[pos];
        if byte == 0x22 {
          pos := pos + 1;
          return Ok(output);
        }
        if byte == 0x5C {
          pos := pos + 1;
          var c := Escaped();
          if c.Err? { return Err(c.error); }
          output := output + [c.value];
          continue;
        }
        if byte < 0x20 { return Err(ControlCharacter); }
        ValidIsBoundary(input, pos);
        var d := DecodeAt(input, pos);
        if d.None? { return Err(InvalidUtf8); }
        output := output + [d.value.scalar];
        pos := pos + d.value.width;
      }
      return Err(Unterminated);
    }

    method Digits()
      requires Valid()
      modifies this`pos
      ensures pos == SkipDigits(input, old(pos)) && Valid()
    {
      while pos < |input| && IsDigit(input[pos])
        invariant Valid() && SkipDigits(input, pos) == SkipDigits(input, old(pos))
      {
        pos := pos + 1;
      }
    }

    method WholePart() returns (r: Result<(), JsonError>)
      requires Valid()
      modifies this`pos
      ensures Reads(PInteger(input, old(pos)), r)
    {
      if pos < |input| && input[pos] == 0x30 {
        pos := pos + 1;
        if pos < |input| && IsDigit(input[pos]) { return Err(LeadingZero); }
      } else if pos < |input| && IsDigit(input[pos]) {
        pos := pos + 1;
        Digits();
      } else {
        return Err(InvalidNumber);
      }
      r := Ok(());
    }

    method Fraction() returns (r: Result<(), JsonError>)
      requires Valid()
      modifies this`pos
      ensures Reads(PFraction(input, old(pos)), r)
    {
      if pos < |input| && input[pos] == 0x2E {
        pos := pos + 1;
        var start := pos;
        Digits();
        if pos == start { return Err(InvalidFraction); }
      }
      r := Ok(());
    }

    method Exponent() returns (r: Result<(), JsonError>)
      requires Valid()
      modifies this`pos
      ensures Reads(PExponent(input, old(pos)), r)
    {
      if pos < |input| && (input[pos] == 0x65 || input[pos] == 0x45) {
        pos := pos + 1;
        assert Valid();
        if pos < |input| && (input[pos] == 0x2B || input[pos] == 0x2D) { pos := pos + 1; }
        var start := pos;
        Digits();
        if pos == start { return Err(InvalidExponent); }
      }
      r := Ok(());
    }

    method NumberToken() returns (r: Result<Json, JsonError>)
      requires Valid()
      modifies this`pos
      ensures Reads(PNumber(input, old(pos)), r)
    {
      hide NumberText;
      var start := pos;
      ValidIsBoundary(input, start);
      if pos < |input| && input[pos] == 0x2D { pos := pos + 1; }
      var whole := WholePart();
      if whole.Err? { return Err(whole.error); }
      var fraction := Fraction();
      if fraction.Err? { return Err(fraction.error); }
      var exponent := Exponent();
      if exponent.Err? { return Err(exponent.error); }
      ValidIsBoundary(input, pos);
      r := Ok(Number(Slice(input, start, pos)));
    }

    method Value() returns (r: Result<Json, JsonError>)
      requires Valid()
      modifies this
      ensures Reads(PValue(input, old(pos), old(depth)), r) && depth == old(depth)
      decreases |input| - pos, 4
    {
      if depth >= MAX_DEPTH { return Err(NestingLimit); }
      depth := depth + 1;
      r := ValueInner();
      depth := depth - 1;
    }

    method ValueInner() returns (r: Result<Json, JsonError>)
      requires Valid() && depth <= MAX_DEPTH
      modifies this
      ensures Reads(PInner(input, SkipSpace(input, old(pos)), old(depth)), r) && depth == old(depth)
      decreases |input| - pos, 3
    {
      Ws();
      var peeked := PeekByte();
      if peeked.Err? { return Err(peeked.error); }
      var b := peeked.value;
      if b == 0x6E { r := Literal(NULL, Null); }
      else if b == 0x74 { r := Literal(TRUE, Bool(true)); }
      else if b == 0x66 { r := Literal(FALSE, Bool(false)); }
      else if b == 0x22 {
        var s := Str();
        r := if s.Ok? then Ok(String(s.value)) else Err(s.error);
      }
      else if b == 0x5B { r := ArrayToken(); }
      else if b == 0x7B { r := ObjectToken(); }
      else if b == 0x2D || IsDigit(b) { r := NumberToken(); }
      else { r := Err(UnsupportedToken); }
    }

    method ArrayToken() returns (r: Result<Json, JsonError>)
      requires Valid() && depth <= MAX_DEPTH && pos < |input| && input[pos] == 0x5B
      modifies this
      ensures Reads(PArray(input, old(pos) + 1, old(depth)), r) && depth == old(depth)
      decreases |input| - pos, 2
    {
      hide Good, PInner, PMember;
      pos := pos + 1;
      var values: seq<Json> := [];
      Ws();
      if pos < |input| && input[pos] == 0x5D {
        pos := pos + 1;
        return Ok(Array(values));
      }
      while true
        invariant Valid() && depth == old(depth) && old(pos) < pos
        invariant PItems(input, pos, depth, values) == PArray(input, old(pos) + 1, old(depth))
        decreases |input| - pos
      {
        var item := Value();
        if item.Err? { return Err(item.error); }
        values := values + [item.value];
        Ws();
        if pos < |input| && input[pos] == 0x2C {
          pos := pos + 1;
        } else if pos < |input| && input[pos] == 0x5D {
          pos := pos + 1;
          break;
        } else {
          return Err(InvalidArray);
        }
      }
      r := Ok(Array(values));
    }

    method Key(values: seq<Keyed<Json>>) returns (r: Result<Utf8.Str, JsonError>)
      requires Valid()
      modifies this`pos
      ensures Reads(PKey(input, old(pos), values), r)
    {
      Ws();
      if !(pos < |input| && input[pos] == 0x22) { return Err(KeyNotString); }
      var key := Str();
      if key.Err? { return Err(key.error); }
      if HasKey(values, key.value) { return Err(DuplicateKey); }
      Ws();
      if !(pos < |input| && input[pos] == 0x3A) { return Err(MissingColon); }
      pos := pos + 1;
      r := Ok(key.value);
    }

    method Member(values: seq<Keyed<Json>>) returns (r: Result<Keyed<Json>, JsonError>)
      requires Valid() && depth <= MAX_DEPTH
      modifies this
      ensures Reads(PMember(input, old(pos), old(depth), values), r) && depth == old(depth)
      decreases |input| - pos, 5
    {
      hide Good, HasKey;
      var key := Key(values);
      if key.Err? { return Err(key.error); }
      var value := Value();
      if value.Err? { return Err(value.error); }
      r := Ok(Keyed(key.value, value.value));
    }

    method ObjectToken() returns (r: Result<Json, JsonError>)
      requires Valid() && depth <= MAX_DEPTH && pos < |input| && input[pos] == 0x7B
      modifies this
      ensures Reads(PObject(input, old(pos) + 1, old(depth)), r) && depth == old(depth)
      decreases |input| - pos, 2
    {
      hide Good, HasKey, PMember, DecodeAt, DistinctKeys;
      AsciiStep(input, pos);
      pos := pos + 1;
      var values: seq<Keyed<Json>> := [];
      Ws();
      if pos < |input| && input[pos] == 0x7D {
        AsciiStep(input, pos);
        pos := pos + 1;
        return Ok(Object(values));
      }
      while true
        invariant Valid() && depth == old(depth) && old(pos) < pos
        invariant PMembers(input, pos, depth, values) == PObject(input, old(pos) + 1, old(depth))
        decreases |input| - pos
      {
        var member := Member(values);
        if member.Err? { return Err(member.error); }
        values := values + [member.value];
        Ws();
        if pos < |input| && input[pos] == 0x2C {
          AsciiStep(input, pos);
          pos := pos + 1;
        } else if pos < |input| && input[pos] == 0x7D {
          AsciiStep(input, pos);
          pos := pos + 1;
          break;
        } else {
          return Err(InvalidObject);
        }
      }
      r := Ok(Object(values));
    }
  }

  /** `Json::parse` on a text, which is well-formed UTF-8. */
  method ParseText(text: Bytes) returns (r: Result<Json, JsonError>)
    requires ValidFrom(text, 0)
    ensures r == Parse(text)
  {
    var parser := new Parser(text);
    var value := parser.Value();
    if value.Err? { return value; }
    parser.Ws();
    if parser.pos != |text| { return Err(TrailingData); }
    r := value;
  }
}
