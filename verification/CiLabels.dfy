/** Job and step labels cut to 160 UTF-8 bytes (`_truncate_label` in
    scripts/actions_ci_inspect.py). */
module CiLabels {
  import opened Common
  import opened Utf8

  /** What a Python string holds: code points, lone surrogates included. */
  type CodePoint = c: nat | c < 0x110000

  datatype LabelError = MalformedJob

  const MAX_LABEL_BYTES := 160
  const ELLIPSIS: Scalar := 0x2026

  predicate Encodable(value: seq<CodePoint>) {
    forall i | 0 <= i < |value| :: !(0xD800 <= value[i] < 0xE000)
  }

  // ----- prefixes of an encoding

  lemma {:induction false} EncodeAllConcat(s: Str, t: Str)
    ensures EncodeAll(s + t) == EncodeAll(s) + EncodeAll(t)
  {
    hide Encode;
    if s == [] {
      assert s + t == t;
    } else {
      assert s + t == [s[0]] + (s[1..] + t) && s == [s[0]] + s[1..];
      EncodeCons(s[0], s[1..] + t);
      EncodeCons(s[0], s[1..]);
      EncodeAllConcat(s[1..], t);
    }
  }

  lemma StartsAt(u: Bytes, t: Bytes, v: Bytes)
    requires t + v <= u
    ensures At(u, 0, t)
  {
    assert u[..|t|] == (t + v)[..|t|] == t;
  }

  lemma CommonStart(t: Bytes, u: Bytes, v: Bytes)
    requires t + u <= t + v
    ensures u <= v
  {
    assert u == (t + u)[|t|..] && v == (t + v)[|t|..];
    assert (t + v)[..|t + u|] == t + u;
    assert v[..|u|] == (t + v)[..|t + u|][|t|..];
  }

  /** Two texts with the same first bytes have the same first character. */
  lemma SameFirst(s: Str, t: Str)
    requires s != [] && EncodeAll(s) <= EncodeAll(t)
    ensures t != [] && s[0] == t[0] && EncodeAll(s[1..]) <= EncodeAll(t[1..])
  {
    hide Encode, DecodeAt, At;
    var u := EncodeAll(t);
    assert EncodeAll(s) == Encode(s[0]) + EncodeAll(s[1..]);
    assert t != [] && u == Encode(t[0]) + EncodeAll(t[1..]);
    StartsAt(u, Encode(s[0]), EncodeAll(s[1..]));
    StartsAt(u, Encode(t[0]), EncodeAll(t[1..]));
    DecodeOfEncode(u, 0, s[0]);
    DecodeOfEncode(u, 0, t[0]);
    CommonStart(Encode(s[0]), EncodeAll(s[1..]), EncodeAll(t[1..]));
  }

  lemma {:induction false} EncodingPrefixIsPrefix(s: Str, t: Str)
    requires EncodeAll(s) <= EncodeAll(t)
    ensures s <= t
  {
    if s != [] {
      SameFirst(s, t);
      EncodingPrefixIsPrefix(s[1..], t[1..]);
      assert s == [s[0]] + s[1..] && t == [t[0]] + t[1..];
    }
  }

  /** A prefix of an encoding is well-formed exactly when it ends between two characters. */
  lemma PrefixIsWhole(t: Str, n: nat)
    requires n <= |EncodeAll(t)| && ValidFrom(EncodeAll(t)[..n], 0)
    ensures var d := DecodeFrom(EncodeAll(t)[..n], 0); d <= t && EncodeAll(d) == EncodeAll(t)[..n]
  {
    var bs := EncodeAll(t)[..n];
    EncodeOfDecodeFrom(bs, 0);
    assert bs[0..] == bs;
    EncodingPrefixIsPrefix(DecodeFrom(bs, 0), t);
  }

  lemma WholeIsPrefix(t: Str, k: nat)
    requires k <= |t|
    ensures var n := |EncodeAll(t[..k])|; n <= |EncodeAll(t)| && ValidFrom(EncodeAll(t)[..n], 0) && EncodeAll(t)[..n] == EncodeAll(t[..k])
  {
    var bs := EncodeAll(t[..k]);
    assert t == t[..k] + t[k..];
    EncodeAllConcat(t[..k], t[k..]);
    assert bs[0..|bs|] == bs;
    DecodeOfEncodeAll(bs, 0, t[..k]);
  }

  lemma {:induction false} LongerIsLonger(t: Str, j: nat, k: nat)
    requires j < k <= |t|
    ensures |EncodeAll(t[..j])| < |EncodeAll(t[..k])|
  {
    var rest := t[..k][j..];
    assert t[..k] == t[..j] + rest;
    EncodeAllConcat(t[..j], rest);
    assert rest == [rest[0]] + rest[1..];
    EncodeCons(rest[0], rest[1..]);
  }

  /** `k` characters of `t` are the most that fit into 157 bytes. */
  predicate LongestFit(t: Str, k: nat) {
    k <= |t| && |EncodeAll(t[..k])| <= 157 && (k < |t| ==> |EncodeAll(t[..k + 1])| > 157)
  }

  /** A label that fits is returned as it is; a longer one is its longest whole-character prefix
      of at most 157 bytes and an ellipsis, at most 160 bytes in all. The last error of the
      original is unreachable. */
  method TruncateLabel(value: seq<CodePoint>) returns (r: Result<(Str, bool), LabelError>)
    ensures r.Err? <==> value == [] || 0 in value || exists i | 0 <= i < |value| :: 0xD800 <= value[i] <= 0xDFFF
    ensures r.Ok? ==> |EncodeAll(r.value.0)| <= 160
    ensures r.Ok? && |EncodeAll(value)| <= 160 ==> r.value == (value, false)
    ensures r.Ok? && |EncodeAll(value)| > 160 ==>
              exists k :: 0 < k && LongestFit(value, k) && r.value == (value[..k] + [0x2026], true)
  {
    if value == [] || 0 in value { return Err(MalformedJob); }
    if !Encodable(value) { return Err(MalformedJob); }
    var text: Str := value;
    var encoded := EncodeAll(text);
    if |encoded| <= MAX_LABEL_BYTES { return Ok((text, false)); }
    var limit := MAX_LABEL_BYTES - 3;
    var prefix := encoded[..limit];
    while prefix != []
      invariant |prefix| <= limit && prefix == encoded[..|prefix|]
      invariant forall n | |prefix| < n <= limit :: !ValidFrom(encoded[..n], 0)
      decreases |prefix|
    {
      if ValidFrom(prefix, 0) {
        var kept := DecodeFrom(prefix, 0);
        PrefixIsWhole(text, |prefix|);
        KeptIsLongest(text, kept, |prefix|);
        EncodeAllConcat(kept, [ELLIPSIS]);
        assert EncodeAll([ELLIPSIS]) == Encode(ELLIPSIS) + [];
        assert kept == value[..|kept|];
        return Ok((kept + [ELLIPSIS], true));
      }
      prefix := prefix[..|prefix| - 1];
    }
    OneFits(text);
    assert false;
    return Err(MalformedJob);
  }

  lemma KeptIsLongest(t: Str, kept: Str, n: nat)
    requires kept <= t && |EncodeAll(t)| > MAX_LABEL_BYTES && 0 < n <= MAX_LABEL_BYTES - 3
    requires EncodeAll(kept) == EncodeAll(t)[..n]
    requires forall m | n < m <= MAX_LABEL_BYTES - 3 :: !ValidFrom(EncodeAll(t)[..m], 0)
    ensures |kept| > 0 && LongestFit(t, |kept|)
  {
    assert t[..|kept|] == kept;
    if |kept| < |t| {
      WholeIsPrefix(t, |kept| + 1);
      LongerIsLonger(t, |kept|, |kept| + 1);
    }
  }

  lemma OneFits(t: Str)
    requires t != [] && |EncodeAll(t)| > MAX_LABEL_BYTES
    ensures exists n :: 0 < n <= MAX_LABEL_BYTES - 3 && ValidFrom(EncodeAll(t)[..n], 0)
  {
    WholeIsPrefix(t, 1);
    EncodeCons(t[0], []);
    assert t[..1] == [t[0]] + [];
    assert ValidFrom(EncodeAll(t)[..|EncodeAll(t[..1])|], 0);
  }
}
