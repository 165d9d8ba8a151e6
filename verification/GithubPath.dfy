/** The request path validator of scripts/actions_github_api.py, which decodes the path again
    and again until nothing changes, with `urllib.parse.unquote` as its decoding step. */
module GithubPath {
  import opened Ascii
  import opened Common
  import opened Utf8

  const PERCENT: Scalar := 0x25
  const SLASH: Scalar := 0x2F
  const QUESTION: Scalar := 0x3F
  const REPLACEMENT: Scalar := 0xFFFD

  // ----- one decoding step

  type AsciiText = s: seq<nat> | forall i | 0 <= i < |s| :: s[i] < 0x80

  /** A percent sign and two hexadecimal digits start here. */
  predicate EscapeAt(s: seq<nat>, i: nat) {
    i + 2 < |s| && s[i] == PERCENT && IsHex(s[i + 1]) && IsHex(s[i + 2])
  }

  /** `unquote_to_bytes` on an ASCII text. */
  function PercentDecode(s: AsciiText): Bytes {
    if s == [] then []
    else if EscapeAt(s, 0) then [HexValue(s[1]) * 16 + HexValue(s[2])] + PercentDecode(s[3..])
    else [s[0]] + PercentDecode(s[1..])
  }

  /** How many bytes one replacement character stands for: the longest start of a character,
      or one byte. */
  function BadWidth(bs: Bytes): (w: nat)
    requires bs != []
    ensures 1 <= w <= |bs|
  {
    var b := bs[0];
    if |bs| < 2 || !Continuation(bs[1]) then 1
    else if (b == 0xE0 && bs[1] >= 0xA0) || (0xE1 <= b <= 0xEC) || (b == 0xED
                                                                    && bs[1] < 0xA0) || (0xEE <= b <= 0xEF) then 2
    else if (b == 0xF0 && bs[1] >= 0x90) || (0xF1 <= b <= 0xF3) || (b == 0xF4 && bs[1] < 0x90) then
      if |bs| > 2 && Continuation(bs[2]) then 3 else 2
    else 1
  }

  /** `bytes.decode("utf-8", "replace")`. */
  function DecodeReplace(bs: Bytes): Str {
    if bs == [] then []
    else match DecodeAt(bs, 0)
      case Some(d) => [d.scalar] + DecodeReplace(bs[d.width..])
      case None => [REPLACEMENT] + DecodeReplace(bs[BadWidth(bs)..])
  }

  function AsciiRun(s: Str): (n: nat)
    ensures n <= |s| && forall i | 0 <= i < n :: s[i] < 0x80
    ensures n < |s| ==> s[n] >= 0x80
  {
    if s == [] || s[0] >= 0x80 then 0 else 1 + AsciiRun(s[1..])
  }

  /** `urllib.parse.unquote`: each ASCII run is decoded, everything else stays. */
  function Unquote(s: Str): Str {
    if s == [] then []
    else if s[0] >= 0x80 then [s[0]] + Unquote(s[1..])
    else DecodeReplace(PercentDecode(s[..AsciiRun(s)])) + Unquote(s[AsciiRun(s)..])
  }

  function Decoded(s: Str, k: nat): Str {
    if k == 0 then s else Unquote(Decoded(s, k - 1))
  }

  // ----- what a decoding step keeps

  lemma PlainByteDecodes(b: Byte, bs: Bytes)
    requires b < 0x80
    ensures DecodeReplace([b] + bs) == [b] + DecodeReplace(bs)
  {
    assert ([b] + bs)[1..] == bs;
  }

  lemma PlainCharacterDecodes(c: Scalar, s: AsciiText)
    requires c < 0x80 && c != PERCENT
    ensures PercentDecode([c] + s) == [c] + PercentDecode(s)
  {
    assert ([c] + s)[1..] == s;
  }

  lemma {:induction false} UnquoteSplits(s: Str)
    ensures Unquote(s) == DecodeReplace(PercentDecode(s[..AsciiRun(s)])) + Unquote(s[AsciiRun(s)..])
  {
    if s == [] || s[0] >= 0x80 {
      assert s[..0] == [] && s[0..] == s;
    }
  }

  lemma RunOfPlain(c: Scalar, s: Str)
    requires c < 0x80
    ensures var n := AsciiRun(s);
            AsciiRun([c] + s) == n + 1 && ([c] + s)[..n + 1] == [c] + s[..n] && ([c] + s)[n + 1..] == s[n..]
  {
    assert ([c] + s)[1..] == s;
  }

  /** An ASCII character other than the percent sign is kept in front of everything. */
  lemma UnquoteKeepsPlain(c: Scalar, s: Str)
    requires c < 0x80 && c != PERCENT
    ensures Unquote([c] + s) == [c] + Unquote(s)
  {
    hide Unquote, DecodeReplace, PercentDecode, AsciiRun;
    var n := AsciiRun(s);
    RunOfPlain(c, s);
    UnquoteSplits(s);
    UnquoteSplits([c] + s);
    PlainCharacterDecodes(c, s[..n]);
    PlainByteDecodes(c, PercentDecode(s[..n]));
    assert [c] + (DecodeReplace(PercentDecode(s[..n])) + Unquote(s[n..])) == ([c] + DecodeReplace(PercentDecode(s[..n]))) + Unquote(s[n..]);
  }

  predicate PlainText(s: Str) {
    forall i | 0 <= i < |s| :: s[i] < 0x80 && s[i] != PERCENT
  }

  lemma {:induction false} UnquoteKeepsPrefix(p: Str, s: Str)
    requires PlainText(p)
    ensures Unquote(p + s) == p + Unquote(s)
  {
    hide Unquote;
    if p == [] {
      assert p + s == s;
    } else {
      assert p + s == [p[0]] + (p[1..] + s);
      UnquoteKeepsPlain(p[0], p[1..] + s);
      UnquoteKeepsPrefix(p[1..], s);
      assert p == [p[0]] + p[1..];
      assert [p[0]] + (p[1..] + Unquote(s)) == ([p[0]] + p[1..]) + Unquote(s);
    }
  }

  lemma {:induction false} DecodedKeepsPrefix(p: Str, s: Str, k: nat)
    requires PlainText(p)
    ensures Decoded(p + s, k) == p + Decoded(s, k)
  {
    hide Unquote;
    if k > 0 {
      DecodedKeepsPrefix(p, s, k - 1);
      UnquoteKeepsPrefix(p, Decoded(s, k - 1));
    }
  }

  // ----- fixpoints of decoding

  predicate HasEscape(s: seq<nat>) {
    exists i :: 0 <= i < |s| && EscapeAt(s, i)
  }

  lemma {:induction false} DecodeReplaceIsNoLonger(bs: Bytes)
    ensures |DecodeReplace(bs)| <= |bs|
  {
    hide DecodeAt, BadWidth;
    if bs != [] {
      match DecodeAt(bs, 0)
      case Some(d) => DecodeReplaceIsNoLonger(bs[d.width..]);
      case None => DecodeReplaceIsNoLonger(bs[BadWidth(bs)..]);
    }
  }

  lemma {:induction false} PercentDecodeShrinks(s: AsciiText)
    ensures |PercentDecode(s)| <= |s|
    ensures HasEscape(s) ==> |PercentDecode(s)| < |s|
  {
    if s != [] {
      if EscapeAt(s, 0) {
        PercentDecodeShrinks(s[3..]);
      } else {
        PercentDecodeShrinks(s[1..]);
        if HasEscape(s) {
          var i :| 0 <= i < |s| && EscapeAt(s, i);
          assert EscapeAt(s[1..], i - 1);
        }
      }
    }
  }

  lemma {:induction false} UnquoteShrinks(s: Str)
    ensures |Unquote(s)| <= |s|
    ensures HasEscape(s) ==> |Unquote(s)| < |s|
    decreases |s|
  {
    if s != [] {
      if s[0] >= 0x80 {
        UnquoteShrinks(s[1..]);
        if HasEscape(s) { EscapeLater(s, 1); }
      } else {
        var n := AsciiRun(s);
        PercentDecodeShrinks(s[..n]);
        DecodeReplaceIsNoLonger(PercentDecode(s[..n]));
        UnquoteShrinks(s[n..]);
        if HasEscape(s) { EscapeLater(s, n); }
      }
    }
  }

  lemma EscapeLater(s: Str, n: nat)
    requires HasEscape(s) && n <= |s| && (n < |s| && n > 0 ==> s[n - 1] >= 0x80 || s[n] >= 0x80)
    requires n > 0
    ensures HasEscape(s[..n]) || HasEscape(s[n..])
  {
    var i :| 0 <= i < |s| && EscapeAt(s, i);
    if i < n {
      assert EscapeAt(s[..n], i);
    } else {
      assert EscapeAt(s[n..], i - n);
    }
  }

  lemma {:induction false} PercentDecodeKeeps(s: AsciiText)
    requires !HasEscape(s)
    ensures PercentDecode(s) == s
  {
    if s != [] {
      assert !EscapeAt(s, 0);
      forall i | 0 <= i < |s[1..]| ensures !EscapeAt(s[1..], i) { assert !EscapeAt(s, i + 1); }
      PercentDecodeKeeps(s[1..]);
    }
  }

  lemma {:induction false} DecodeReplaceKeepsAscii(s: AsciiText)
    ensures DecodeReplace(s) == s
  {
    if s != [] {
      DecodeReplaceKeepsAscii(s[1..]);
      assert s == [s[0]] + s[1..];
      PlainByteDecodes(s[0], s[1..]);
    }
  }

  lemma {:induction false} UnquoteKeeps(s: Str)
    requires !HasEscape(s)
    ensures Unquote(s) == s
    decreases |s|
  {
    hide PercentDecode, DecodeReplace;
    if s != [] {
      var n := if s[0] >= 0x80 then 1 else AsciiRun(s);
      forall i | 0 <= i < |s[n..]| ensures !EscapeAt(s[n..], i) { assert !EscapeAt(s, n + i); }
      UnquoteKeeps(s[n..]);
      if s[0] < 0x80 {
        forall i | 0 <= i < |s[..n]| ensures !EscapeAt(s[..n], i) { assert !EscapeAt(s, i); }
        PercentDecodeKeeps(s[..n]);
        DecodeReplaceKeepsAscii(s[..n]);
      }
      assert s == s[..n] + s[n..];
    }
  }

  /** Decoding changes nothing exactly when no percent-escape is left. */
  lemma FixpointMeansNoEscape(s: Str)
    ensures Unquote(s) == s <==> !HasEscape(s)
  {
    UnquoteShrinks(s);
    if !HasEscape(s) { UnquoteKeeps(s); }
  }

  lemma {:induction false} DecodedAtFixpoint(s: Str, j: nat, k: nat)
    requires Decoded(s, j + 1) == Decoded(s, j) && j <= k
    ensures Decoded(s, k) == Decoded(s, j)
    decreases k
  {
    hide Unquote;
    if j < k { DecodedAtFixpoint(s, j, k - 1); }
  }

  // ----- the validator

  datatype PathError =
    | Unbounded | ForbiddenCharacter | NotUnderRepos | EncodedForbidden | EmptySegment
    | DotSegment | EncodedDelimiter | ExcessivelyEncoded | OutsideNamespace

  const MAX_PATH_BYTES := 8192
  const ROUNDS := 9

  predicate Control(c: Scalar) {
    c < 0x20 || c == 0x7F
  }

  /** No backslash, fragment mark, user-information mark or control character. */
  predicate Sound(s: Str) {
    forall i | 0 <= i < |s| :: s[i] != 0x5C && s[i] != 0x23 && s[i] != 0x40 && !Control(s[i])
  }

  /** The path before the query. */
  function BeforeQuery(s: Str): Str {
    if s == [] || s[0] == QUESTION then [] else [s[0]] + BeforeQuery(s[1..])
  }

  predicate DoubleSlash(s: Str) {
    exists i | 0 <= i < |s| - 1 :: s[i] == SLASH && s[i + 1] == SLASH
  }

  /** `split("/")`. */
  function Segments(s: Str): (ss: seq<Str>)
    ensures ss != []
  {
    if s == [] then [[]]
    else
      var rest := Segments(s[1..]);
      if s[0] == SLASH then [[]] + rest else [[s[0]] + rest[0]] + rest[1..]
  }

  predicate HasDotSegment(s: Str) {
    [0x2E] in Segments(s) || [0x2E, 0x2E] in Segments(s)
  }

  predicate NoQuestion(s: Str) {
    forall i | 0 <= i < |s| :: s[i] != QUESTION
  }

  /** What every decoding of the path must be. */
  predicate Clean(s: Str) {
    !HasDotSegment(s) && Sound(s) && NoQuestion(s)
  }

  const REPOS: Str := [0x2F, 0x72, 0x65, 0x70, 0x6F, 0x73, 0x2F]  // /repos/

  /** The path names an allowed repository or something below it. */
  predicate Under(s: Str, repository: Str) {
    s == REPOS + repository || REPOS + repository + [SLASH] <= s
  }

  predicate Bounded(s: Str) {
    |s| <= MAX_PATH_BYTES && forall i | 0 <= i < |s| :: s[i] < 0x80
  }

  /** What a path must satisfy: itself, and each of its decodings. */
  ghost predicate Acceptable(relative: Str, allowed: set<Str>) {
    var path := BeforeQuery(relative);
    && Bounded(relative) && Sound(relative) && REPOS <= relative && Sound(Unquote(relative)) && !DoubleSlash(path)
    && (forall k: nat :: Clean(Decoded(path, k)))
    && !HasEscape(Decoded(path, 8))
    && exists r :: r in allowed && Under(path, r)
  }

  method ValidatePath(relative: Str, allowed: set<Str>) returns (r: Result<Str, PathError>)
    ensures r.Ok? <==> Acceptable(relative, allowed)
    ensures r.Ok? ==> r.value == relative
  {
    hide Unquote, Clean, Sound, HasEscape;
    if !Bounded(relative) { return Err(Unbounded); }
    if !Sound(relative) { return Err(ForbiddenCharacter); }
    assert REPOS <= relative ==> relative[1] == REPOS[1];
    if [SLASH, SLASH] <= relative || !(REPOS <= relative) {
      assert [SLASH, SLASH] <= relative ==> relative[1] == [SLASH, SLASH][1];
      return Err(NotUnderRepos);
    }
    if !Sound(Unquote(relative)) { return Err(EncodedForbidden); }
    var path := BeforeQuery(relative);
    if DoubleSlash(path) { return Err(EmptySegment); }
    var settled := Settle(path);
    if settled.Err? { return Err(settled.error); }
    if !(exists r | r in allowed :: Under(path, r)) { return Err(OutsideNamespace); }
    assert (forall k: nat :: Clean(Decoded(path, k))) && exists r :: r in allowed && Under(path, r);
    assert Acceptable(relative, allowed);
    r := Ok(relative);
  }

  /** The loop: at most nine rounds, each checking one decoding and stopping when the next is
      the same. It succeeds exactly when every decoding, however often repeated, is clean and
      the eighth has no escape left. */
  method Settle(path: Str) returns (r: Result<Str, PathError>)
    ensures r.Ok? <==> (forall k: nat :: Clean(Decoded(path, k))) && !HasEscape(Decoded(path, 8))
    ensures r.Ok? ==> !HasEscape(r.value)
  {
    hide Unquote, HasEscape;
    var curr := path;
    for round := 0 to ROUNDS
      invariant curr == Decoded(path, round)
      invariant forall k | 0 <= k < round :: Clean(Decoded(path, k)) && HasEscape(Decoded(path, k))
    {
      if HasDotSegment(curr) {
        assert !Clean(Decoded(path, round));
        return Err(DotSegment);
      }
      if !(Sound(curr) && NoQuestion(curr)) {
        assert !Clean(Decoded(path, round));
        return Err(EncodedDelimiter);
      }
      var unquoted := Unquote(curr);
      FixpointMeansNoEscape(curr);
      if unquoted == curr {
        assert Decoded(path, round + 1) == Decoded(path, round);
        forall k: nat ensures Clean(Decoded(path, k)) {
          if round <= k { DecodedAtFixpoint(path, round, k); }
        }
        DecodedAtFixpoint(path, round, ROUNDS - 1);
        return Ok(curr);
      }
      curr := unquoted;
    }
    assert HasEscape(Decoded(path, ROUNDS - 1));
    return Err(ExcessivelyEncoded);
  }

  /** What the validator's tests and bounds are, in characters. */
  lemma TestsMean(s: Str)
    ensures Sound(s) <==> forall i | 0 <= i < |s| :: s[i] != 0x7F && s[i] >= 0x20 && !(s[i] as char in "\\#@")
    ensures NoQuestion(s) <==> forall i | 0 <= i < |s| :: s[i] as char != '?'
    ensures Bounded(s) <==> |s| <= 8192 && forall i | 0 <= i < |s| :: s[i] < 128
    ensures |REPOS| == |"/repos/"| && forall i | 0 <= i < |REPOS| :: REPOS[i] == "/repos/"[i] as int
    ensures DoubleSlash(s) <==> exists i :: 0 <= i < |s| - 1 && s[i] as char == '/' && s[i + 1] as char == '/'
  {
  }

  /** The path ends before the first question mark. */
  lemma {:induction false} PathEndsAtQuery(s: Str)
    ensures var path := BeforeQuery(s);
            && path <= s && (forall i | 0 <= i < |path| :: path[i] as char != '?')
            && (path == s || s[|path|] as char == '?')
  {
    if s != [] && s[0] != QUESTION { PathEndsAtQuery(s[1..]); }
  }

  /** It names the repository itself or something below it. */
  lemma UnderMeans(s: Str, repository: Str)
    ensures Under(s, repository) <==>
              && |s| >= 7 + |repository| && s[..7] == REPOS && s[7..7 + |repository|] == repository
              && (|s| == 7 + |repository| || s[7 + |repository|] as char == '/')
  {
    var name := REPOS + repository;
    if |s| >= |name| {
      assert s[..|name|] == s[..7] + s[7..|name|];
      assert |s| > |name| ==> s[..|name| + 1] == s[..|name|] + [s[|name|]];
      assert s[..|name|] == name <==> s[..7] == REPOS && s[7..|name|] == repository by {
        assert name[..7] == REPOS && name[7..] == repository;
      }
      if |s| > |name| {
        assert name + [SLASH] <= s <==> s[..|name| + 1] == name + [SLASH];
        assert s[..|name| + 1][..|name|] == s[..|name|] && (name + [SLASH])[..|name|] == name;
        assert s[..|name| + 1] == name + [SLASH] ==> s[..|name| + 1][|name|] == (name + [SLASH])[|name|];
      } else {
        assert s[..|name|] == s;
      }
    }
  }

  // ----- what a replacement character stands for

  /** Some longer character begins with these bytes. */
  ghost predicate Begins(bs: Bytes) {
    exists c: Scalar :: |bs| < |Encode(c)| && Encode(c)[..|bs|] == bs
  }

  lemma ThreeBytes(c: nat, h: nat, m: nat, l: nat)
    requires m < 64 && l < 64 && c == h * 4096 + m * 64 + l
    ensures c / 64 / 64 == h && c / 64 % 64 == m && c % 64 == l
  {
    Pack(h * 64 + m, l);
    Pack(h, m);
    assert (h * 64 + m) * 64 + l == c;
  }

  lemma FourBytes(c: nat, g: nat, h: nat, m: nat, l: nat)
    requires h < 64 && m < 64 && l < 64 && c == g * 262144 + h * 4096 + m * 64 + l
    ensures c / 64 / 64 / 64 == g && c / 64 / 64 % 64 == h && c / 64 % 64 == m && c % 64 == l
  {
    ThreeBytes(c, g * 64 + h, m, l);
    Pack(g, h);
  }

  /** The longest start of a character that cannot be completed is replaced as one. */
  lemma StartsAreReplacedWhole(bs: Bytes)
    requires bs != [] && BadWidth(bs) > 1
    ensures Begins(bs[..BadWidth(bs)])
  {
    var w := BadWidth(bs);
    var b, m := bs[0] as int, bs[1] as int - 0x80;
    if b < 0xF0 {
      var c := (b - 0xE0) * 4096 + m * 64;
      ThreeBytes(c, b - 0xE0, m, 0);
      assert Encode(c)[..w] == bs[..w];
    } else {
      var l := if w == 3 then bs[2] as int - 0x80 else 0;
      var c := (b - 0xF0) * 262144 + m * 4096 + l * 64;
      FourBytes(c, b - 0xF0, m, l, 0);
      assert Encode(c)[..w] == bs[..w];
    }
  }

  lemma NoLongerStart(bs: Bytes, n: nat)
    requires bs != [] && 1 < n <= |bs| && Begins(bs[..n])
    ensures n <= BadWidth(bs)
  {
    var c: Scalar :| |bs[..n]| < |Encode(c)| && Encode(c)[..|bs[..n]|] == bs[..n];
    var u := Encode(c);
    hide BadWidth, Encode;
    assert bs[0] == u[0] && bs[1] == u[1] && (n == 3 ==> bs[2] == u[2]) by {
      assert forall i | 0 <= i < n :: u[..n][i] == bs[..n][i];
    }
    LeadingBytes(c);
    WideEnough(bs, n);
  }

  /** The leading byte and the second one of a character of three or four bytes. */
  lemma LeadingBytes(c: Scalar)
    requires |Encode(c)| > 2
    ensures var u := Encode(c);
            && Continuation(u[1])
            && (|u| == 3 ==> 0xE0 <= u[0] <= 0xEF && (u[0] == 0xE0 ==> u[1] >= 0xA0) && (u[0] == 0xED ==> u[1] < 0xA0))
            && (|u| == 4 ==> 0xF0 <= u[0] <= 0xF4 && (u[0] == 0xF0 ==> u[1] >= 0x90) && (u[0] == 0xF4 ==> u[1] < 0x90)
                             && Continuation(u[2]))
  {
  }

  lemma WideEnough(bs: Bytes, n: nat)
    requires 1 < n <= |bs| && n <= 3 && Continuation(bs[1])
    requires || (n == 2 && 0xE0 <= bs[0] <= 0xEF && (bs[0] == 0xE0 ==> bs[1] >= 0xA0) && (bs[0] == 0xED ==> bs[1] < 0xA0))
             || (0xF0 <= bs[0] <= 0xF4 && (bs[0] == 0xF0 ==> bs[1] >= 0x90) && (bs[0] == 0xF4 ==> bs[1] < 0x90)
                 && (n == 3 ==> Continuation(bs[2])))
    ensures n <= BadWidth(bs)
  {
  }

  // ----- what escapes stand for

  /** The text spells the bytes: each byte is written as itself, if it is an ASCII character other
      than the percent sign, or as a percent sign and its two digits, upper half first, in either case. */
  predicate Spells(t: seq<nat>, bs: Bytes) {
    if bs == [] then t == []
    else
      || (t != [] && t[0] == bs[0] && bs[0] < 0x80 && bs[0] as char != '%' && Spells(t[1..], bs[1..]))
      || (|t| >= 3 && t[0] == '%' as int && IsDigitOf(t[1], bs[0] / 16) && IsDigitOf(t[2], bs[0] % 16)
          && Spells(t[3..], bs[1..]))
  }

  /** Decoding gives back the bytes that a text spells, however it spells them. */
  lemma {:induction false} SpelledIsDecoded(t: AsciiText, bs: Bytes)
    requires Spells(t, bs)
    ensures PercentDecode(t) == bs
    decreases |bs|
  {
    if bs != [] {
      if t[0] == bs[0] && bs[0] < 0x80 && bs[0] as char != '%' && Spells(t[1..], bs[1..]) {
        SpelledIsDecoded(t[1..], bs[1..]);
      } else {
        HexDigitsMean(t[1], bs[0] / 16);
        HexDigitsMean(t[2], bs[0] % 16);
        hide HexValue, IsHex, IsDigitOf;
        SpelledIsDecoded(t[3..], bs[1..]);
      }
      assert bs == [bs[0]] + bs[1..];
    }
  }

  /** Every byte escaped, with the digits of one of the two tables. */
  function PercentEncode(bs: Bytes, upper: bool): (t: AsciiText)
  {
    if bs == [] then []
    else
      var digits := if upper then UPPER else LOWER;
      assert forall i | 0 <= i < 16 :: digits[i] as int < 0x80;
      ['%' as int, digits[bs[0] / 16] as int, digits[bs[0] % 16] as int] + PercentEncode(bs[1..], upper)
  }

  lemma {:induction false} EncodedIsSpelled(bs: Bytes, upper: bool)
    ensures Spells(PercentEncode(bs, upper), bs)
  {
    if bs != [] {
      EncodedIsSpelled(bs[1..], upper);
      assert PercentEncode(bs, upper)[3..] == PercentEncode(bs[1..], upper);
    }
  }

  /** Decoding inverts encoding. */
  lemma DecodeOfEncode(bs: Bytes, upper: bool)
    ensures PercentDecode(PercentEncode(bs, upper)) == bs
  {
    EncodedIsSpelled(bs, upper);
    SpelledIsDecoded(PercentEncode(bs, upper), bs);
  }

  lemma {:induction false} WholeRun(t: AsciiText)
    ensures AsciiRun(t) == |t|
  {
    if t != [] { WholeRun(t[1..]); }
  }

  lemma SpelledIsUnquoted(t: AsciiText, bs: Bytes)
    requires Spells(t, bs)
    ensures Unquote(t) == DecodeReplace(bs)
  {
    hide DecodeReplace, Spells, PercentDecode;
    WholeRun(t);
    SpelledIsDecoded(t, bs);
    UnquoteSplits(t);
    assert t[..|t|] == t && t[|t|..] == [];
    assert DecodeReplace(bs) + [] == DecodeReplace(bs);
  }

  // ----- a slash separates what is decoded on both sides of it

  /** The bytes that stand at the front of a text, and how many characters they take. */
  function FrontByte(s: AsciiText): (r: (Bytes, nat))
    requires s != []
    ensures 0 < r.1 <= |s|
  {
    if EscapeAt(s, 0) then ([HexValue(s[1]) * 16 + HexValue(s[2])], 3) else ([s[0]], 1)
  }

  lemma FrontFirst(s: AsciiText)
    requires s != []
    ensures PercentDecode(s) == FrontByte(s).0 + PercentDecode(s[FrontByte(s).1..])
  {
    hide HexValue, IsHex;
  }

  lemma FrontStays(x: AsciiText, y: AsciiText)
    requires x != []
    ensures FrontByte(x + [SLASH] + y) == FrontByte(x)
  {
    hide HexValue;
    var s: AsciiText := x + [SLASH] + y;
    assert s[0] == x[0] && (|x| > 1 ==> s[1] == x[1]) && (|x| > 2 ==> s[2] == x[2]);
    assert |x| == 1 ==> s[1] == SLASH;
    assert |x| == 2 ==> s[2] == SLASH;
  }

  lemma {:induction false} PercentDecodeSplits(x: AsciiText, y: AsciiText)
    ensures PercentDecode(x + [SLASH] + y) == PercentDecode(x) + [SLASH] + PercentDecode(y)
  {
    hide PercentDecode, FrontByte;
    var s: AsciiText := x + [SLASH] + y;
    if x == [] {
      assert s == [SLASH] + y;
      PlainCharacterDecodes(SLASH, y);
      assert PercentDecode(x) == [] by { NothingDecodes(); }
    } else {
      var (bs, n) := FrontByte(x);
      FrontStays(x, y);
      FrontFirst(s);
      FrontFirst(x);
      assert s[n..] == x[n..] + [SLASH] + y;
      PercentDecodeSplits(x[n..], y);
      assert bs + (PercentDecode(x[n..]) + [SLASH] + PercentDecode(y))
             == bs + PercentDecode(x[n..]) + [SLASH] + PercentDecode(y);
    }
  }

  lemma NothingDecodes()
    ensures PercentDecode([]) == []
  {
  }

  lemma SameStart(u: Bytes, v: Bytes)
    requires u != []
    ensures var s := u + [SLASH] + v;
            DecodeAt(s, 0) == DecodeAt(u, 0) && (DecodeAt(u, 0).None? ==> BadWidth(s) == BadWidth(u))
  {
    var s := u + [SLASH] + v;
    assert forall i | 0 <= i < |u| :: s[i] == u[i];
    assert s[|u|] == SLASH && !Continuation(SLASH);
  }

  lemma {:induction false} DecodeReplaceSplits(u: Bytes, v: Bytes)
    ensures DecodeReplace(u + [SLASH] + v) == DecodeReplace(u) + [SLASH] + DecodeReplace(v)
    decreases |u|
  {
    hide DecodeAt, BadWidth;
    var s := u + [SLASH] + v;
    if u == [] {
      assert s == [SLASH] + v;
      PlainByteDecodes(SLASH, v);
    } else {
      SameStart(u, v);
      var n := match DecodeAt(u, 0) case Some(d) => d.width case None => BadWidth(u);
      assert s[n..] == u[n..] + [SLASH] + v;
      DecodeReplaceSplits(u[n..], v);
    }
  }

  lemma {:induction false} RunSplits(x: AsciiText, s: Str)
    ensures AsciiRun(x + [SLASH] + s) == |x| + 1 + AsciiRun(s)
  {
    var t: Str := x + [SLASH] + s;
    if x == [] {
      assert t[1..] == s;
    } else {
      assert t[1..] == x[1..] + [SLASH] + s;
      RunSplits(x[1..], s);
    }
  }

  lemma AllOfARun(x: AsciiText, s: Str)
    ensures Unquote(x + [SLASH] + s) == Unquote(x) + [SLASH] + Unquote(s)
  {
    hide Unquote, DecodeReplace, PercentDecode, AsciiRun;
    var t: Str := x + [SLASH] + s;
    var m := AsciiRun(s);
    RunSplits(x, s);
    WholeRun(x);
    UnquoteSplits(t);
    UnquoteSplits(x);
    UnquoteSplits(s);
    assert t[..|x| + 1 + m] == x + [SLASH] + s[..m] && t[|x| + 1 + m..] == s[m..];
    PercentDecodeSplits(x, s[..m]);
    DecodeReplaceSplits(PercentDecode(x), PercentDecode(s[..m]));
    assert x[..|x|] == x && x[|x|..] == [];
    NothingUnquoted();
    var u, v := DecodeReplace(PercentDecode(x)), DecodeReplace(PercentDecode(s[..m]));
    assert u + [SLASH] + v + Unquote(s[m..]) == u + [SLASH] + (v + Unquote(s[m..]));
    assert u + [] == u;
  }

  lemma NothingUnquoted()
    ensures Unquote([]) == []
  {
  }

  lemma PartOfARun(x: Str, s: Str)
    requires AsciiRun(x) < |x|
    ensures Unquote(x + [SLASH] + s) == Unquote(x[..AsciiRun(x)]) + Unquote(x[AsciiRun(x)..] + [SLASH] + s)
    ensures Unquote(x) == Unquote(x[..AsciiRun(x)]) + Unquote(x[AsciiRun(x)..])
  {
    hide Unquote, DecodeReplace, PercentDecode, AsciiRun;
    var t, n := x + [SLASH] + s, AsciiRun(x);
    EarlyRun(x, [SLASH] + s);
    assert t == x + ([SLASH] + s);
    assert t[..n] == x[..n] && t[n..] == x[n..] + [SLASH] + s;
    UnquoteSplits(t);
    UnquoteSplits(x);
    WholeRun(x[..n]);
    UnquoteSplits(x[..n]);
    assert x[..n][..n] == x[..n] && x[..n][n..] == [];
    NothingUnquoted();
    assert DecodeReplace(PercentDecode(x[..n])) + [] == DecodeReplace(PercentDecode(x[..n]));
  }

  lemma {:induction false} UnquoteSplitsAtSlash(x: Str, s: Str)
    ensures Unquote(x + [SLASH] + s) == Unquote(x) + [SLASH] + Unquote(s)
    decreases |x|
  {
    var t, n := x + [SLASH] + s, AsciiRun(x);
    if n == |x| {
      AllOfARun(x, s);
    } else if n == 0 {
      assert t[1..] == x[1..] + [SLASH] + s;
      UnquoteSplitsAtSlash(x[1..], s);
    } else {
      hide Unquote, AsciiRun;
      PartOfARun(x, s);
      UnquoteSplitsAtSlash(x[n..], s);
    }
  }

  lemma {:induction false} EarlyRun(x: Str, s: Str)
    requires AsciiRun(x) < |x|
    ensures AsciiRun(x + s) == AsciiRun(x)
  {
    if x[0] < 0x80 {
      assert (x + s)[1..] == x[1..] + s;
      EarlyRun(x[1..], s);
    }
  }

  lemma {:induction false} DecodedSplitsAtSlash(x: Str, s: Str, k: nat)
    ensures Decoded(x + [SLASH] + s, k) == Decoded(x, k) + [SLASH] + Decoded(s, k)
  {
    hide Unquote;
    if k > 0 {
      DecodedSplitsAtSlash(x, s, k - 1);
      UnquoteSplitsAtSlash(Decoded(x, k - 1), Decoded(s, k - 1));
    }
  }

  lemma {:induction false} SegmentsSplit(x: Str, s: Str)
    ensures Segments(x + [SLASH] + s) == Segments(x) + Segments(s)
  {
    var t := x + [SLASH] + s;
    if x == [] {
      assert t[1..] == s;
    } else {
      assert t[1..] == x[1..] + [SLASH] + s;
      SegmentsSplit(x[1..], s);
    }
  }

  // ----- dot segments, however they are written

  /** The text is what `k` rounds of encoding may make of `s`, each writing every character as it
      is or as an escape. */
  ghost predicate Written(t: AsciiText, s: AsciiText, k: nat)
    decreases k
  {
    if k == 0 then t == s else exists u: AsciiText :: Spells(t, u) && Written(u, s, k - 1)
  }

  lemma {:induction false} DecodedLater(s: Str, k: nat)
    ensures Decoded(Unquote(s), k) == Decoded(s, k + 1)
  {
    hide Unquote;
    if k > 0 { DecodedLater(s, k - 1); }
  }

  lemma {:induction false} WrittenIsDecoded(t: AsciiText, s: AsciiText, k: nat)
    requires Written(t, s, k)
    ensures Decoded(t, k) == s
    decreases k
  {
    hide Unquote, Spells, DecodeReplace;
    if k > 0 {
      var u: AsciiText :| Spells(t, u) && Written(u, s, k - 1);
      WrittenIsDecoded(u, s, k - 1);
      SpelledIsUnquoted(t, u);
      DecodeReplaceKeepsAscii(u);
      DecodedLater(t, k - 1);
    }
  }

  lemma {:induction false} OneSegment(s: Str)
    requires SLASH !in s
    ensures Segments(s) == [s]
  {
    if s != [] {
      OneSegment(s[1..]);
      assert s == [s[0]] + s[1..];
    }
  }

  /** A path with a segment of one or two dots is rejected, in whatever mix of raw and escaped
      characters the segment is written and however often it has been encoded. */
  lemma DotsAreRejected(relative: Str, allowed: set<Str>, before: Str, t: AsciiText, after: Str, dots: AsciiText,
                        k: nat)
    requires BeforeQuery(relative) == before + [SLASH] + (t + after) && (after == [] || after[0] == SLASH)
    requires dots == ['.' as int] || dots == ['.' as int, '.' as int]
    requires Written(t, dots, k)
    ensures !Acceptable(relative, allowed)
  {
    hide Unquote, Written, Sound, HasEscape, Segments, Decoded;
    var path := BeforeQuery(relative);
    WrittenIsDecoded(t, dots, k);
    OneSegment(dots);
    DecodedSplitsAtSlash(before, t + after, k);
    SegmentsSplit(Decoded(before, k), Decoded(t + after, k));
    if after == [] {
      assert t + after == t;
    } else {
      var rest := after[1..];
      assert t + after == t + [SLASH] + rest;
      DecodedSplitsAtSlash(t, rest, k);
      SegmentsSplit(dots, Decoded(rest, k));
    }
    assert dots in Segments(Decoded(t + after, k));
    assert dots in Segments(Decoded(path, k));
    assert !Clean(Decoded(path, k));
  }

  lemma NoPercentInNames(repository: Str)
    requires PlainText(repository)
    ensures PlainText(REPOS + repository) && PlainText(REPOS + repository + [SLASH])
  {
  }

  /** However often an accepted path is decoded, it has no dot segment and no delimiter, and it
      stays below the repository it names. */
  lemma AcceptedPathsStayInside(relative: Str, allowed: set<Str>, k: nat)
    requires Acceptable(relative, allowed) && forall r | r in allowed :: PlainText(r)
    ensures Clean(Decoded(BeforeQuery(relative), k))
    ensures exists r :: r in allowed && Under(BeforeQuery(relative), r) && Under(Decoded(BeforeQuery(relative), k), r)
  {
    hide Unquote, Clean, HasEscape;
    var path := BeforeQuery(relative);
    var r :| r in allowed && Under(path, r);
    var name := REPOS + r;
    NoPercentInNames(r);
    if path == name {
      assert name + [] == name;
      DecodedKeepsPrefix(name, [], k);
      DecodedOfNothing(k);
    } else {
      var below := name + [SLASH];
      assert path == below + path[|below|..];
      DecodedKeepsPrefix(below, path[|below|..], k);
    }
    assert Under(Decoded(path, k), r);
  }

  lemma {:induction false} DecodedOfNothing(k: nat)
    ensures Decoded([], k) == []
  {
    if k > 0 { DecodedOfNothing(k - 1); }
  }
}
