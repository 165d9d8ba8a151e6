/** Unicode scalar values, their UTF-8 form (section 3 of RFC 3629) and their UTF-16 form. */
module Utf8 {
  import opened Common

  type Byte = b: nat | b < 256
  type Bytes = seq<Byte>

  type Scalar = c: nat | c < 0xD800 || 0xE000 <= c < 0x110000
  type Str = seq<Scalar>

  predicate Continuation(b: Byte) {
    0x80 <= b < 0xC0
  }

  function Encode(c: Scalar): (bs: Bytes)
    ensures 1 <= |bs| <= 4 && !Continuation(bs[0])
    ensures forall i | 1 <= i < |bs| :: Continuation(bs[i])
    ensures c < 0x80 ==> bs == [c]
    ensures c >= 0x80 ==> bs[0] >= 0x80
  {
    if c < 0x80 then [c]
    else if c < 0x800 then [0xC0 + c / 64, 0x80 + c % 64]
    else if c < 0x10000 then [0xE0 + c / 64 / 64, 0x80 + c / 64 % 64, 0x80 + c % 64]
    else [0xF0 + c / 64 / 64 / 64, 0x80 + c / 64 / 64 % 64, 0x80 + c / 64 % 64, 0x80 + c % 64]
  }

  function EncodeAll(s: Str): Bytes {
    if s == [] then [] else Encode(s[0]) + EncodeAll(s[1..])
  }

  datatype Decoded = Decoded(scalar: Scalar, width: nat)

  function Scalars(v: nat, least: nat, width: nat): Option<Decoded> {
    if v < least || 0xD800 <= v < 0xE000 || v >= 0x110000 then None else Some(Decoded(v, width))
  }

  /** The six bits a continuation byte carries. */
  function Bits(b: Byte): (r: nat)
    requires Continuation(b)
    ensures r < 64
  {
    b as int - 0x80
  }

  /** The character that starts at `p`, if a well-formed one does. */
  function DecodeAt(bs: Bytes, p: nat): (r: Option<Decoded>)
    requires p < |bs|
    ensures r.Some? ==> 1 <= r.value.width <= 4 && p + r.value.width <= |bs|
  {
    var b: int := bs[p];
    if b < 0x80 then Some(Decoded(b, 1))
    else if 0xC2 <= b < 0xE0 && p + 1 < |bs| && Continuation(bs[p + 1])
    then Scalars((b - 0xC0) * 64 + Bits(bs[p + 1]), 0x80, 2)
    else if 0xE0 <= b < 0xF0 && p + 2 < |bs| && Continuation(bs[p + 1]) && Continuation(bs[p + 2])
    then Scalars(((b - 0xE0) * 64 + Bits(bs[p + 1])) * 64 + Bits(bs[p + 2]), 0x800, 3)
    else if 0xF0 <= b < 0xF5 && p + 3 < |bs| && Continuation(bs[p + 1]) && Continuation(bs[p + 2]) && Continuation(bs[p + 3])
    then Scalars((((b - 0xF0) * 64 + Bits(bs[p + 1])) * 64 + Bits(bs[p + 2])) * 64 + Bits(bs[p + 3]), 0x10000, 4)
    else None
  }

  /** From `p` on the bytes are well-formed UTF-8. */
  predicate ValidFrom(bs: Bytes, p: nat)
    requires p <= |bs|
    decreases |bs| - p
  {
    p == |bs| || (DecodeAt(bs, p).Some? && ValidFrom(bs, p + DecodeAt(bs, p).value.width))
  }

  function DecodeFrom(bs: Bytes, p: nat): Str
    requires p <= |bs| && ValidFrom(bs, p)
    decreases |bs| - p
  {
    if p == |bs| then []
    else [DecodeAt(bs, p).value.scalar] + DecodeFrom(bs, p + DecodeAt(bs, p).value.width)
  }

  /** Where a string may be cut: `str::is_char_boundary`. */
  predicate Boundary(bs: Bytes, p: nat) {
    p == 0 || p == |bs| || (p < |bs| && !Continuation(bs[p]))
  }

  /** The bytes `t` stand at `p`. */
  predicate At(bs: Bytes, p: nat, t: Bytes) {
    p + |t| <= |bs| && bs[p..p + |t|] == t
  }

  lemma AtSplit(bs: Bytes, p: nat, t: Bytes, u: Bytes)
    ensures At(bs, p, t + u) <==> At(bs, p, t) && At(bs, p + |t|, u)
  {
    if p + |t| + |u| <= |bs| {
      var both := bs[p..p + |t + u|];
      assert both == bs[p..p + |t|] + bs[p + |t|..p + |t| + |u|];
      assert both[..|t|] == bs[p..p + |t|] && both[|t|..] == bs[p + |t|..p + |t| + |u|];
      assert (t + u)[..|t|] == t && (t + u)[|t|..] == u;
    }
  }

  lemma Cut(bs: Bytes, p: nat, t: Bytes)
    requires At(bs, p, t)
    ensures p + |t| <= |bs| && bs[p..p + |t|] == t
  {
  }

  lemma AtByte(bs: Bytes, p: nat, t: Bytes, i: nat)
    requires At(bs, p, t) && i < |t|
    ensures p + i < |bs| && bs[p + i] == t[i]
  {
    assert bs[p..p + |t|][i] == bs[p + i];
  }

  lemma Pack(high: nat, low: nat)
    requires low < 64
    ensures (high * 64 + low) / 64 == high && (high * 64 + low) % 64 == low
  {
  }

  lemma DecodeOfEncode(bs: Bytes, p: nat, c: Scalar)
    requires At(bs, p, Encode(c))
    ensures DecodeAt(bs, p) == Some(Decoded(c, |Encode(c)|))
  {
    var t := Encode(c);
    assert bs[p] == t[0] by { AtByte(bs, p, t, 0); }
    if |t| > 1 { AtByte(bs, p, t, 1); }
    if |t| > 2 { AtByte(bs, p, t, 2); }
    if |t| > 3 { AtByte(bs, p, t, 3); }
  }

  lemma EncodePacked(h: nat, i: nat, j: nat, k: nat, c: Scalar)
    requires i < 64 && j < 64 && k < 64
    ensures 0x80 <= c < 0x800 && c == h * 64 + k ==> Encode(c) == [0xC0 + h, 0x80 + k]
    ensures 0x800 <= c < 0x10000 && c == (h * 64 + j) * 64 + k ==> Encode(c) == [0xE0 + h, 0x80 + j, 0x80 + k]
    ensures 0x10000 <= c && c == ((h * 64 + i) * 64 + j) * 64 + k ==> Encode(c) == [0xF0 + h, 0x80 + i, 0x80 + j, 0x80 + k]
  {
    Pack(h, k);
    Pack(h, j);
    Pack(h * 64 + j, k);
    Pack(h, i);
    Pack(h * 64 + i, j);
    Pack((h * 64 + i) * 64 + j, k);
  }

  lemma EncodeOfDecode(bs: Bytes, p: nat)
    requires p < |bs| && DecodeAt(bs, p).Some?
    ensures At(bs, p, Encode(DecodeAt(bs, p).value.scalar))
    ensures |Encode(DecodeAt(bs, p).value.scalar)| == DecodeAt(bs, p).value.width
  {
    hide Encode;
    var b: int := bs[p];
    var Decoded(c, w) := DecodeAt(bs, p).value;
    var t := bs[p..p + w];
    if w == 1 {
      assert t == [bs[p]] && c == bs[p];
      assert t == Encode(c);
    } else if w == 2 {
      EncodePacked(b - 0xC0, 0, 0, Bits(bs[p + 1]), c);
      assert t == Encode(c);
    } else if w == 3 {
      EncodePacked(b - 0xE0, 0, Bits(bs[p + 1]), Bits(bs[p + 2]), c);
      assert t == Encode(c);
    } else {
      EncodePacked(b - 0xF0, Bits(bs[p + 1]), Bits(bs[p + 2]), Bits(bs[p + 3]), c);
      assert t == Encode(c);
    }
  }

  /** Decoding is the inverse of encoding, on exactly the well-formed byte strings. */
  lemma {:induction false} DecodeOfEncodeAll(bs: Bytes, p: nat, s: Str)
    requires p + |EncodeAll(s)| == |bs| && At(bs, p, EncodeAll(s))
    ensures ValidFrom(bs, p) && DecodeFrom(bs, p) == s
    decreases |s|
  {
    hide DecodeAt, Encode, At;
    if s != [] {
      var c := s[0];
      AtSplit(bs, p, Encode(c), EncodeAll(s[1..]));
      DecodeOfEncode(bs, p, c);
      DecodeOfEncodeAll(bs, p + |Encode(c)|, s[1..]);
      assert DecodeFrom(bs, p) == [c] + s[1..];
    }
  }

  lemma EncodeCons(c: Scalar, s: Str)
    ensures EncodeAll([c] + s) == Encode(c) + EncodeAll(s)
  {
    hide Encode;
    assert ([c] + s)[1..] == s;
  }

  lemma {:induction false} EncodeOfDecodeFrom(bs: Bytes, p: nat)
    requires p <= |bs| && ValidFrom(bs, p)
    ensures EncodeAll(DecodeFrom(bs, p)) == bs[p..]
    decreases |bs| - p
  {
    hide DecodeAt, Encode, EncodeAll;
    if p < |bs| {
      var Decoded(c, w) := DecodeAt(bs, p).value;
      EncodeOfDecode(bs, p);
      EncodeOfDecodeFrom(bs, p + w);
      EncodeCons(c, DecodeFrom(bs, p + w));
      assert bs[p..] == bs[p..p + w] + bs[p + w..];
    } else {
      NothingEncoded();
    }
  }

  lemma NothingEncoded()
    ensures EncodeAll([]) == []
  {
  }

  lemma AsciiStep(bs: Bytes, p: nat)
    requires p < |bs| && bs[p] < 0x80
    ensures ValidFrom(bs, p) <==> ValidFrom(bs, p + 1)
  {
  }

  lemma ValidIsBoundary(bs: Bytes, p: nat)
    requires p <= |bs| && ValidFrom(bs, p)
    ensures Boundary(bs, p)
  {
  }

  // ----- UTF-16

  function Units(c: Scalar): (us: seq<nat>)
    ensures 1 <= |us| <= 2 && forall i | 0 <= i < |us| :: us[i] < 0x10000
  {
    if c < 0x10000 then [c] else [0xD800 + (c - 0x10000) / 1024, 0xDC00 + (c - 0x10000) % 1024]
  }

  function Utf16(s: Str): seq<nat> {
    if s == [] then [] else Units(s[0]) + Utf16(s[1..])
  }

  /** What the units of a character stand for: itself, or a leading and then a trailing surrogate
      that carry the upper and the lower ten bits of what exceeds the first plane. */
  lemma UnitsMean(c: Scalar)
    ensures var us := Units(c);
            if c < 0x10000 then |us| == 1 && us[0] == c
            else |us| == 2 && 0xD800 <= us[0] < 0xDC00 <= us[1] < 0xE000
                 && 0x10000 + (us[0] - 0xD800) * 0x400 + (us[1] - 0xDC00) == c
  {
  }

  lemma {:induction false} UnitsInOrder(s: Str, t: Str)
    ensures Utf16(s + t) == Utf16(s) + Utf16(t)
    ensures |s| == 1 ==> Utf16(s) == Units(s[0])
  {
    hide Units;
    if s == [] {
      assert s + t == t;
    } else {
      assert (s + t)[1..] == s[1..] + t;
      UnitsInOrder(s[1..], t);
    }
  }

  /** Different strings have different UTF-16 forms. */
  lemma {:induction false} Utf16IsInjective(s: Str, t: Str)
    requires Utf16(s) == Utf16(t)
    ensures s == t
  {
    if s == [] || t == [] {
      assert |Utf16(s)| == |Utf16(t)|;
    } else {
      var a, b := Utf16(s), Utf16(t);
      assert a[0] == Units(s[0])[0] && b[0] == Units(t[0])[0];
      assert |Units(s[0])| == |Units(t[0])|;
      assert a[|Units(s[0])| - 1] == Units(s[0])[|Units(s[0])| - 1] && b[|Units(t[0])| - 1] == Units(t[0])[|Units(t[0])| - 1];
      assert s[0] == t[0];
      assert a[|Units(s[0])|..] == Utf16(s[1..]) && b[|Units(t[0])|..] == Utf16(t[1..]);
      Utf16IsInjective(s[1..], t[1..]);
    }
  }
}
