/** SHA-256, HMAC and the webhook signature check of src/ledger/json.rs, against the
    definitions of FIPS 180-4 and RFC 2104. A byte is a number below 256; a word is 32 bits. */
module Sha256 {
  import opened Ascii
  import opened Utf8

  type Word = bv32

  // ----- the definition of FIPS 180-4

  /** Addition modulo 2^32: `wrapping_add`. */
  function Add(x: Word, y: Word): Word { x + y }

  function Add4(x: Word, y: Word, z: Word, u: Word): Word { x + y + z + u }

  function Ch(x: Word, y: Word, z: Word): Word { (x & y) ^ (!x & z) }

  function Maj(x: Word, y: Word, z: Word): Word { (x & y) ^ (x & z) ^ (y & z) }

  function BigSigma0(x: Word): Word { x.RotateRight(2) ^ x.RotateRight(13) ^ x.RotateRight(22) }

  function BigSigma1(x: Word): Word { x.RotateRight(6) ^ x.RotateRight(11) ^ x.RotateRight(25) }

  function SmallSigma0(x: Word): Word { x.RotateRight(7) ^ x.RotateRight(18) ^ (x >> 3) }

  function SmallSigma1(x: Word): Word { x.RotateRight(17) ^ x.RotateRight(19) ^ (x >> 10) }

  /** The constants of section 4.2.2. */
  function K(): (ks: seq<Word>)
    ensures |ks| == 64
  {
    [0x428a2f98, 0x71374491, 0xb5c0fbcf, 0xe9b5dba5, 0x3956c25b, 0x59f111f1, 0x923f82a4, 0xab1c5ed5]
    + [0xd807aa98, 0x12835b01, 0x243185be, 0x550c7dc3, 0x72be5d74, 0x80deb1fe, 0x9bdc06a7, 0xc19bf174]
    + [0xe49b69c1, 0xefbe4786, 0x0fc19dc6, 0x240ca1cc, 0x2de92c6f, 0x4a7484aa, 0x5cb0a9dc, 0x76f988da]
    + [0x983e5152, 0xa831c66d, 0xb00327c8, 0xbf597fc7, 0xc6e00bf3, 0xd5a79147, 0x06ca6351, 0x14292967]
    + [0x27b70a85, 0x2e1b2138, 0x4d2c6dfc, 0x53380d13, 0x650a7354, 0x766a0abb, 0x81c2c92e, 0x92722c85]
    + [0xa2bfe8a1, 0xa81a664b, 0xc24b8b70, 0xc76c51a3, 0xd192e819, 0xd6990624, 0xf40e3585, 0x106aa070]
    + [0x19a4c116, 0x1e376c08, 0x2748774c, 0x34b0bcb5, 0x391c0cb3, 0x4ed8aa4a, 0x5b9cca4f, 0x682e6ff3]
    + [0x748f82ee, 0x78a5636f, 0x84c87814, 0x8cc70208, 0x90befffa, 0xa4506ceb, 0xbef9a3f7, 0xc67178f2]
  }

  datatype State = State(a: Word, b: Word, c: Word, d: Word, e: Word, f: Word, g: Word, h: Word)

  /** The initial hash value of section 5.3.3. */
  function Initial(): State {
    State(0x6a09e667, 0xbb67ae85, 0x3c6ef372, 0xa54ff53a, 0x510e527f, 0x9b05688c, 0x1f83d9ab, 0x5be0cd19)
  }

  function FromBytes(b0: Byte, b1: Byte, b2: Byte, b3: Byte): Word {
    (b0 * 0x1000000 + b1 * 0x10000 + b2 * 0x100 + b3) as Word
  }

  function ToBytes(w: Word): (bs: Bytes)
    ensures |bs| == 4
  {
    var n := w as int;
    [n / 0x1000000 % 0x100, n / 0x10000 % 0x100, n / 0x100 % 0x100, n % 0x100]
  }

  /** The `k` low bytes of a number, most significant first. */
  function BigEndian(n: nat, k: nat): (bs: Bytes)
    ensures |bs| == k
  {
    if k == 0 then [] else BigEndian(n / 0x100, k - 1) + [n % 0x100]
  }

  function Zeros(k: nat): (bs: Bytes)
    ensures |bs| == k
  {
    seq(k, i => 0)
  }

  /** How many zero bytes bring the length to 56 modulo 64: the least that do. */
  function ZeroCount(length: nat): (k: nat)
    ensures k < 64 && (length + 1 + k) % 64 == 56
  {
    var used := length % 64;
    if used <= 55 then 55 - used else 119 - used
  }

  lemma WholeBlocks(length: nat)
    requires length % 64 == 56
    ensures (length + 8) % 64 == 0
  {
  }

  /** Section 5.1.1, for messages of whole bytes. */
  function Padded(message: Bytes): (bs: Bytes)
    ensures |bs| % 64 == 0
  {
    var k := ZeroCount(|message|);
    WholeBlocks(|message| + 1 + k);
    message + [0x80] + Zeros(k) + BigEndian(8 * |message|, 8)
  }

  /** The message schedule of section 6.2.2, step 1, defined by its recurrence. */
  function Schedule(block: Bytes, t: nat): Word
    requires |block| == 64 && t < 64
  {
    if t < 16 then FromBytes(block[4 * t], block[4 * t + 1], block[4 * t + 2], block[4 * t + 3])
    else Add4(SmallSigma1(Schedule(block, t - 2)), Schedule(block, t - 7),
              SmallSigma0(Schedule(block, t - 15)), Schedule(block, t - 16))
  }

  /** One turn of step 3. */
  function Round(s: State, k: Word, w: Word): State {
    var t1 := Add(Add(Add(Add(s.h, BigSigma1(s.e)), Ch(s.e, s.f, s.g)), k), w);
    var t2 := Add(BigSigma0(s.a), Maj(s.a, s.b, s.c));
    State(Add(t1, t2), s.a, s.b, s.c, Add(s.d, t1), s.e, s.f, s.g)
  }

  function Rounds(s: State, block: Bytes, t: nat): State
    requires |block| == 64 && t <= 64
  {
    if t == 0 then s else Round(Rounds(s, block, t - 1), K()[t - 1], Schedule(block, t - 1))
  }

  /** Step 4. */
  function Sum(s: State, t: State): State {
    State(Add(s.a, t.a), Add(s.b, t.b), Add(s.c, t.c), Add(s.d, t.d),
          Add(s.e, t.e), Add(s.f, t.f), Add(s.g, t.g), Add(s.h, t.h))
  }

  /** The hash value after the first `n` blocks. */
  function HashBlocks(bs: Bytes, n: nat): State
    requires 64 * n <= |bs|
  {
    if n == 0 then Initial()
    else
      var s := HashBlocks(bs, n - 1);
      Sum(s, Rounds(s, bs[64 * (n - 1)..64 * n], 64))
  }

  function Output(s: State): (bs: Bytes)
    ensures |bs| == 32
  {
    ToBytes(s.a) + ToBytes(s.b) + ToBytes(s.c) + ToBytes(s.d) + ToBytes(s.e) + ToBytes(s.f) + ToBytes(s.g) + ToBytes(s.h)
  }

  function Digest(message: Bytes): (bs: Bytes)
    ensures |bs| == 32
  {
    Output(HashBlocks(Padded(message), |Padded(message)| / 64))
  }

  // ----- padding loses nothing

  lemma {:induction false} BigEndianIsInjective(m: nat, n: nat, k: nat)
    requires BigEndian(m, k) == BigEndian(n, k) && m < Power256(k) && n < Power256(k)
    ensures m == n
  {
    if k > 0 {
      var a, b := BigEndian(m, k), BigEndian(n, k);
      assert a[..k - 1] == BigEndian(m / 0x100, k - 1) && b[..k - 1] == BigEndian(n / 0x100, k - 1);
      assert a[k - 1] == m % 0x100 && b[k - 1] == n % 0x100;
      BigEndianIsInjective(m / 0x100, n / 0x100, k - 1);
    }
  }

  function Power256(k: nat): nat {
    if k == 0 then 1 else 0x100 * Power256(k - 1)
  }

  /** Different messages are padded differently, so long as their bit length fits 64 bits. */
  lemma PaddingIsInjective(m: Bytes, n: Bytes)
    requires Padded(m) == Padded(n) && 8 * |m| < Power256(8) && 8 * |n| < Power256(8)
    ensures m == n
  {
    var p := Padded(m);
    assert p[|p| - 8..] == BigEndian(8 * |m|, 8);
    assert Padded(n)[|p| - 8..] == BigEndian(8 * |n|, 8);
    BigEndianIsInjective(8 * |m|, 8 * |n|, 8);
    assert p[..|m|] == m && Padded(n)[..|n|] == n;
  }

  // ----- the loops

  method Pad(input: Bytes) returns (message: Bytes)
    ensures message == Padded(input)
  {
    message := input + [0x80];
    ghost var pushed := 0;
    while |message| % 64 != 56
      invariant pushed <= ZeroCount(|input|) && message == input + [0x80] + Zeros(pushed)
      decreases ZeroCount(|input|) - pushed
    {
      LessThanZeroCount(|input|, pushed);
      message := message + [0];
      pushed := pushed + 1;
    }
    EnoughZeros(|input|, pushed);
    message := message + BigEndian(8 * |input|, 8);
  }

  lemma LessThanZeroCount(length: nat, k: nat)
    requires k <= ZeroCount(length) && (length + 1 + k) % 64 != 56
    ensures k < ZeroCount(length)
  {
  }

  lemma EnoughZeros(length: nat, k: nat)
    requires k <= ZeroCount(length) && (length + 1 + k) % 64 == 56
    ensures k == ZeroCount(length)
  {
  }

  lemma ScheduleStart(chunk: Bytes, t: nat)
    requires |chunk| == 64 && t < 16
    ensures Schedule(chunk, t) == FromBytes(chunk[4 * t], chunk[4 * t + 1], chunk[4 * t + 2], chunk[4 * t + 3])
  {
    hide FromBytes;
  }

  lemma Reordered(x: Word, y: Word, z: Word, u: Word)
    ensures Add4(u, z, y, x) == Add4(x, y, z, u)
  {
  }

  /** The recurrence, with the terms in the order the loop adds them. */
  lemma ScheduleStep(chunk: Bytes, t: nat)
    requires |chunk| == 64 && 16 <= t < 64
    ensures Schedule(chunk, t)
            == Add4(Schedule(chunk, t - 16), SmallSigma0(Schedule(chunk, t - 15)), Schedule(chunk, t - 7),
                    SmallSigma1(Schedule(chunk, t - 2)))
  {
    hide Add4, SmallSigma0, SmallSigma1, FromBytes;
    Reordered(Schedule(chunk, t - 16), SmallSigma0(Schedule(chunk, t - 15)), Schedule(chunk, t - 7),
              SmallSigma1(Schedule(chunk, t - 2)));
  }

  /** Fills the sixty-four words of one block's schedule. */
  method Expand(chunk: Bytes, words: array<Word>)
    requires |chunk| == 64 && words.Length == 64
    modifies words
    ensures forall t | 0 <= t < 64 :: words[t] == Schedule(chunk, t)
  {
    hide SmallSigma0, SmallSigma1, Add4, FromBytes, Schedule;
    for index := 0 to 16
      invariant forall t | 0 <= t < index :: words[t] == Schedule(chunk, t)
    {
      var offset := index * 4;
      ScheduleStart(chunk, index);
      words[index] := FromBytes(chunk[offset], chunk[offset + 1], chunk[offset + 2], chunk[offset + 3]);
    }
    for index := 16 to 64
      invariant forall t | 0 <= t < index :: words[t] == Schedule(chunk, t)
    {
      ScheduleStep(chunk, index);
      var s0 := SmallSigma0(words[index - 15]);
      var s1 := SmallSigma1(words[index - 2]);
      words[index] := Add4(words[index - 16], s0, words[index - 7], s1);
    }
  }

  ghost function StateOf(h: array<Word>): State
    requires h.Length == 8
    reads h
  {
    State(h[0], h[1], h[2], h[3], h[4], h[5], h[6], h[7])
  }

  lemma RoundsStep(s: State, block: Bytes, t: nat)
    requires |block| == 64 && t < 64
    ensures Rounds(s, block, t + 1) == Round(Rounds(s, block, t), K()[t], Schedule(block, t))
  {
  }

  /** The sixty-four rounds over eight working variables. */
  method RunRounds(h: array<Word>, words: array<Word>, ghost chunk: Bytes) returns (s: State)
    requires h.Length == 8 && words.Length == 64 && |chunk| == 64
    requires forall t | 0 <= t < 64 :: words[t] == Schedule(chunk, t)
    ensures s == Rounds(StateOf(h), chunk, 64)
  {
    hide Add, Ch, Maj, BigSigma0, BigSigma1, Schedule, K;
    ghost var start := StateOf(h);
    RoundsNone(start, chunk);
    hide Rounds;
    var a, b, c, d := h[0], h[1], h[2], h[3];
    var e, f, g, hh := h[4], h[5], h[6], h[7];
    for index := 0 to 64
      invariant State(a, b, c, d, e, f, g, hh) == Rounds(start, chunk, index)
    {
      RoundsStep(start, chunk, index);
      var s1 := BigSigma1(e);
      var ch := Ch(e, f, g);
      var temp1 := Add(Add(Add(Add(hh, s1), ch), K()[index]), words[index]);
      var s0 := BigSigma0(a);
      var maj := Maj(a, b, c);
      var temp2 := Add(s0, maj);
      hh := g;
      g := f;
      f := e;
      e := Add(d, temp1);
      d := c;
      c := b;
      b := a;
      a := Add(temp1, temp2);
    }
    s := State(a, b, c, d, e, f, g, hh);
  }

  lemma RoundsNone(s: State, block: Bytes)
    requires |block| == 64
    ensures Rounds(s, block, 0) == s
  {
  }

  /** The sum of the working variables into `h`. */
  method AddInto(h: array<Word>, s: State)
    requires h.Length == 8
    modifies h
    ensures StateOf(h) == Sum(old(StateOf(h)), s)
  {
    hide Add;
    h[0] := Add(h[0], s.a);
    h[1] := Add(h[1], s.b);
    h[2] := Add(h[2], s.c);
    h[3] := Add(h[3], s.d);
    h[4] := Add(h[4], s.e);
    h[5] := Add(h[5], s.f);
    h[6] := Add(h[6], s.g);
    h[7] := Add(h[7], s.h);
  }

  /** `sha256`: the loops compute the digest the standard defines, for every input. */
  method Sha256(input: Bytes) returns (output: Bytes)
    ensures output == Digest(input)
  {
    hide Padded, Rounds, Schedule, Sum;
    var h := new Word[8];
    h[0], h[1], h[2], h[3] := 0x6a09e667, 0xbb67ae85, 0x3c6ef372, 0xa54ff53a;
    h[4], h[5], h[6], h[7] := 0x510e527f, 0x9b05688c, 0x1f83d9ab, 0x5be0cd19;
    var message := Pad(input);
    var blocks := |message| / 64;
    for n := 0 to blocks
      invariant StateOf(h) == HashBlocks(message, n)
    {
      var chunk := message[64 * n..64 * (n + 1)];
      var words := new Word[64];
      Expand(chunk, words);
      var s := RunRounds(h, words, chunk);
      AddInto(h, s);
    }
    output := ToBytes(h[0]) + ToBytes(h[1]) + ToBytes(h[2]) + ToBytes(h[3])
              + ToBytes(h[4]) + ToBytes(h[5]) + ToBytes(h[6]) + ToBytes(h[7]);
  }

  // ----- hexadecimal text, HMAC and the signature check

  /** Two lower-case digits a byte. */
  function HexText(bs: Bytes): (t: Bytes)
    ensures |t| == 2 * |bs|
    ensures forall i | 0 <= i < |t| :: 0x30 <= t[i] <= 0x39 || 0x61 <= t[i] <= 0x66
  {
    if bs == [] then [] else [HexDigit(bs[0] / 16), HexDigit(bs[0] % 16)] + HexText(bs[1..])
  }

  /** The text has two digits for each byte, the upper half first, in either case. */
  predicate Denotes(t: Bytes, bs: Bytes) {
    && |t| == 2 * |bs|
    && forall i | 0 <= i < |bs| :: IsDigitOf(t[2 * i], bs[i] / 16) && IsDigitOf(t[2 * i + 1], bs[i] % 16)
  }

  /** Reading the two digits of a byte gives the byte back. */
  lemma {:induction false} HexTextMeans(bs: Bytes, i: nat)
    requires i < |bs|
    ensures var t := HexText(bs);
            && t[2 * i] == LOWER[bs[i] / 16] as int && t[2 * i + 1] == LOWER[bs[i] % 16] as int
            && IsHex(t[2 * i]) && IsHex(t[2 * i + 1]) && HexValue(t[2 * i]) * 16 + HexValue(t[2 * i + 1]) == bs[i]
  {
    if i == 0 {
      HexDigitsMean(HexDigit(bs[0] / 16), bs[0] / 16);
      HexDigitsMean(HexDigit(bs[0] % 16), bs[0] % 16);
      hide HexDigit, HexValue;
      assert HexText(bs)[..2] == [HexDigit(bs[0] / 16), HexDigit(bs[0] % 16)];
    } else {
      HexTextMeans(bs[1..], i - 1);
      hide HexDigit, HexValue, IsHex;
      assert HexText(bs)[2 * i] == HexText(bs[1..])[2 * (i - 1)];
      assert HexText(bs)[2 * i + 1] == HexText(bs[1..])[2 * (i - 1) + 1];
    }
  }

  lemma HexTextDenotes(bs: Bytes)
    ensures Denotes(HexText(bs), bs)
  {
    hide HexText, IsHex, HexValue, LOWER;
    forall i | 0 <= i < |bs| ensures IsDigitOf(HexText(bs)[2 * i], bs[i] / 16)
    && IsDigitOf(HexText(bs)[2 * i + 1], bs[i] % 16) {
      HexTextMeans(bs, i);
    }
  }

  function Power2(k: nat): nat {
    if k == 0 then 1 else 2 * Power2(k - 1)
  }

  /** Exclusive or of the `k` low bits, bit by bit. */
  function XorBits(x: nat, y: nat, k: nat): (r: nat)
    ensures r < Power2(k)
  {
    if k == 0 then 0 else (if x % 2 == y % 2 then 0 else 1) + 2 * XorBits(x / 2, y / 2, k - 1)
  }

  /** Inclusive or of the `k` low bits. */
  function OrBits(x: nat, y: nat, k: nat): (r: nat)
    ensures r < Power2(k)
  {
    if k == 0 then 0 else (if x % 2 == 1 || y % 2 == 1 then 1 else 0) + 2 * OrBits(x / 2, y / 2, k - 1)
  }

  function Bit(x: nat, i: nat): bool {
    if i == 0 then x % 2 == 1 else Bit(x / 2, i - 1)
  }

  /** A bit of the one is set where exactly one of the two is, of the other where at least one is. */
  lemma {:induction false} BitsCombine(x: nat, y: nat, k: nat, i: nat)
    requires i < k
    ensures Bit(XorBits(x, y, k), i) <==> Bit(x, i) != Bit(y, i)
    ensures Bit(OrBits(x, y, k), i) <==> Bit(x, i) || Bit(y, i)
  {
    if i > 0 { BitsCombine(x / 2, y / 2, k - 1, i - 1); }
  }

  function Xor(x: Byte, y: Byte): Byte {
    assert Power2(8) == 256;
    XorBits(x, y, 8)
  }

  function Or(x: Byte, y: Byte): Byte {
    assert Power2(8) == 256;
    OrBits(x, y, 8)
  }

  lemma {:induction false} XorBitsZero(x: nat, y: nat, k: nat)
    requires x < Power2(k) && y < Power2(k)
    ensures XorBits(x, y, k) == 0 <==> x == y
  {
    if k > 0 { XorBitsZero(x / 2, y / 2, k - 1); }
  }

  lemma {:induction false} OrBitsZero(x: nat, y: nat, k: nat)
    requires x < Power2(k) && y < Power2(k)
    ensures OrBits(x, y, k) == 0 <==> x == 0 && y == 0
  {
    if k > 0 { OrBitsZero(x / 2, y / 2, k - 1); }
  }

  /** Folding differences with an inclusive or loses none of them. */
  lemma FoldIsZero(d: Byte, x: Byte, y: Byte)
    ensures Or(d, Xor(x, y)) == 0 <==> d == 0 && x == y
  {
    assert Power2(8) == 256;
    XorBitsZero(x, y, 8);
    OrBitsZero(d, Xor(x, y), 8);
  }

  function XorAll(key: Bytes, pad: Byte): (r: Bytes)
    ensures |r| == |key|
  {
    seq(|key|, i requires 0 <= i < |key| => Xor(key[i], pad))
  }

  /** Section 2 of RFC 2104: the key, or its digest when it is longer than a block, extended
      with zeros to one block. */
  function BlockKey(key: Bytes): (k: Bytes)
    ensures |k| == 64
  {
    var short := if |key| > 64 then Digest(key) else key;
    short + Zeros(64 - |short|)
  }

  function Hmac(key: Bytes, text: Bytes): (r: Bytes)
    ensures |r| == 32
  {
    var k := BlockKey(key);
    Digest(XorAll(k, 0x5c) + Digest(XorAll(k, 0x36) + text))
  }

  lemma PadBits(b: nat)
    requires b < 8
    ensures Bit(0x36, b) <==> b == 1 || b == 2 || b == 4 || b == 5
    ensures Bit(0x5c, b) <==> b == 2 || b == 3 || b == 4 || b == 6
  {
    assert !Bit(0x36, 0) && Bit(0x36, 1) && Bit(0x36, 2) && !Bit(0x36, 3) && Bit(0x36, 4) && Bit(0x36, 5);
    assert !Bit(0x36, 6) && !Bit(0x36, 7);
    assert !Bit(0x5c, 0) && !Bit(0x5c, 1) && Bit(0x5c, 2) && Bit(0x5c, 3) && Bit(0x5c, 4) && !Bit(0x5c, 5);
    assert Bit(0x5c, 6) && !Bit(0x5c, 7);
  }

  /** RFC 2104, bit by bit: the inner block flips bits 1, 2, 4 and 5 of every byte of the key block, the
      outer one bits 2, 3, 4 and 6; a key longer than a block is replaced by its digest, a shorter one
      extended with zeros. */
  lemma HmacMeans(key: Bytes, text: Bytes) returns (inner: Bytes, outer: Bytes)
    ensures |inner| == 64 && |outer| == 64 && Hmac(key, text) == Digest(outer + Digest(inner + text))
    ensures forall i, b | 0 <= i < 64 && 0 <= b < 8 ::
              var short := if |key| > 64 then Digest(key) else key;
              var k := if i < |short| then short[i] else 0;
              && (Bit(inner[i], b) != Bit(k, b) <==> b == 1 || b == 2 || b == 4 || b == 5)
              && (Bit(outer[i], b) != Bit(k, b) <==> b == 2 || b == 3 || b == 4 || b == 6)
  {
    hide Digest, Bit, XorBits;
    var short := if |key| > 64 then Digest(key) else key;
    inner, outer := XorAll(BlockKey(key), 0x36), XorAll(BlockKey(key), 0x5c);
    forall i, b | 0 <= i < 64 && 0 <= b < 8
      ensures var k := if i < |short| then short[i] else 0;
              && (Bit(inner[i], b) != Bit(k, b) <==> b == 1 || b == 2 || b == 4 || b == 5)
              && (Bit(outer[i], b) != Bit(k, b) <==> b == 2 || b == 3 || b == 4 || b == 6)
    {
      BitsCombine(BlockKey(key)[i], 0x36, 8, b);
      BitsCombine(BlockKey(key)[i], 0x5c, 8, b);
      PadBits(b);
    }
  }

  /** `hmac_sha256_hex`, with its fixed-size key blocks filled in place. */
  method HmacHex(key: Bytes, input: Bytes) returns (text: Bytes)
    ensures text == HexText(Hmac(key, input)) && Denotes(text, Hmac(key, input))
  {
    hide Digest, Xor, HexText, Denotes;
    HexTextDenotes(Hmac(key, input));
    var normalized := new Byte[64](_ => 0);
    var short := key;
    if |key| > 64 { short := Sha256(key); }
    for i := 0 to |short|
      invariant normalized[..] == short[..i] + Zeros(64 - i)
    {
      normalized[i] := short[i];
    }
    assert short[..|short|] == short && normalized[..] == BlockKey(key);
    var innerKey, outerKey := new Byte[64](_ => 0), new Byte[64](_ => 0);
    for index := 0 to 64
      invariant normalized[..] == BlockKey(key)
      invariant forall i | 0 <= i < index :: innerKey[i] == Xor(normalized[i], 0x36)
      invariant forall i | 0 <= i < index :: outerKey[i] == Xor(normalized[i], 0x5c)
    {
      innerKey[index] := Xor(normalized[index], 0x36);
      outerKey[index] := Xor(normalized[index], 0x5c);
    }
    assert innerKey[..] == XorAll(BlockKey(key), 0x36) && outerKey[..] == XorAll(BlockKey(key), 0x5c);
    var innerHash := Sha256(innerKey[..] + input);
    var hash := Sha256(outerKey[..] + innerHash);
    text := HexText(hash);
  }

  function LowerByte(b: Byte): Byte {
    if 0x41 <= b <= 0x5A then b + 0x20 else b
  }

  function LowerBytes(t: Bytes): (u: Bytes)
    ensures |u| == |t|
  {
    seq(|t|, i requires 0 <= i < |t| => LowerByte(t[i]))
  }

  const PREFIX: Bytes := [0x73, 0x68, 0x61, 0x32, 0x35, 0x36, 0x3D]  // sha256=

  lemma PrefixIsTheText()
    ensures |PREFIX| == |"sha256="| && forall i | 0 <= i < |PREFIX| :: PREFIX[i] == "sha256="[i] as int
  {
  }

  /** Two digits denote the same byte exactly when they agree up to case. */
  lemma LowerDigits(b: Byte, d: nat)
    requires d < 16
    ensures LowerByte(b) == LOWER[d] as int <==> IsDigitOf(b, d)
  {
  }

  lemma LowerTextDenotes(t: Bytes, bs: Bytes)
    ensures LowerBytes(t) == HexText(bs) <==> Denotes(t, bs)
  {
    hide HexText, LOWER, LowerByte, IsDigitOf, IsHex, HexValue;
    var u, e := LowerBytes(t), HexText(bs);
    if |t| == 2 * |bs| {
      forall i | 0 <= i < |bs|
        ensures u[2 * i] == e[2 * i] <==> IsDigitOf(t[2 * i], bs[i] / 16)
        ensures u[2 * i + 1] == e[2 * i + 1] <==> IsDigitOf(t[2 * i + 1], bs[i] % 16)
      {
        HexTextMeans(bs, i);
        LowerDigits(t[2 * i], bs[i] / 16);
        LowerDigits(t[2 * i + 1], bs[i] % 16);
      }
      if Denotes(t, bs) {
        forall k | 0 <= k < |t| ensures u[k] == e[k] {
          var i := k / 2;
          assert k == 2 * i || k == 2 * i + 1;
          assert IsDigitOf(t[2 * i], bs[i] / 16) && IsDigitOf(t[2 * i + 1], bs[i] % 16);
        }
      }
    }
  }

  /** `verify_github_signature`: true exactly when the header is the prefix followed by sixty-four
      hexadecimal digits, of either case, that denote the bytes of the HMAC, the upper half of each
      byte first. */
  method VerifySignature(secret: Bytes, body: Bytes, header: Bytes) returns (ok: bool)
    ensures ok <==> PREFIX <= header && Denotes(header[|PREFIX|..], Hmac(secret, body))
  {
    hide Hmac, HexText, Xor, Or, Denotes;
    if !(PREFIX <= header) { return false; }
    var provided := header[|PREFIX|..];
    var expected := HmacHex(secret, body);
    LowerTextDenotes(provided, Hmac(secret, body));
    if |provided| != 64 || exists i | 0 <= i < |provided| :: !IsHex(provided[i]) {
      NotHexIsNotLower(provided, expected);
      return false;
    }
    var difference: Byte := 0;
    for i := 0 to 64
      invariant difference == 0 <==> forall j | 0 <= j < i :: expected[j] == LowerByte(provided[j])
    {
      FoldIsZero(difference, expected[i], LowerByte(provided[i]));
      difference := Or(difference, Xor(expected[i], LowerByte(provided[i])));
    }
    ok := difference == 0;
    assert ok <==> LowerBytes(provided) == expected;
  }

  lemma NotHexIsNotLower(provided: Bytes, expected: Bytes)
    requires |expected| == 64 && forall i | 0 <= i < 64 :: 0x30 <= expected[i] <= 0x39 || 0x61 <= expected[i] <= 0x66
    requires |provided| != 64 || exists i :: 0 <= i < |provided| && !IsHex(provided[i])
    ensures LowerBytes(provided) != expected
  {
    if |provided| == 64 {
      var i :| 0 <= i < |provided| && !IsHex(provided[i]);
      assert LowerBytes(provided)[i] != expected[i];
    }
  }
}
