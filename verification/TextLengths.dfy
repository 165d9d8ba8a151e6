/** How long printed texts can become, and which canonical texts exist: bounds for the comments that
    are written out in full. */
module TextLengths {
  import opened Common
  import opened Utf8
  import opened JsonValue
  import opened JsonPrinter
  import opened JsonParser
  import opened Text
  import opened CommentFraming
  import opened CommentJson
  import opened MachineComments
  import opened MarkedTexts
  import opened PublisherEnvelopes
  import opened BuiltEnvelopes
  import Decimal

  /** Printable ASCII. */
  predicate Visible(s: string) {
    forall i | 0 <= i < |s| :: ' ' <= s[i] <= '~'
  }

  /** Printable ASCII that JSON never escapes. */
  predicate Unescaped(s: string) {
    Visible(s) && forall i | 0 <= i < |s| :: s[i] != '"' && s[i] != '\\'
  }

  // ----- pretty-printed JSON

  lemma {:induction false} EscapedLength(s: string)
    requires Visible(s)
    ensures |EscapeAll(s)| <= 2 * |s| && (Unescaped(s) ==> |EscapeAll(s)| == |s|)
  {
    if s != "" { EscapedLength(s[1..]); }
  }

  lemma StringLength(s: string, level: nat)
    requires Visible(s)
    ensures |Pretty(VString(s), level)| <= 2 * |s| + 2 && (Unescaped(s) ==> |Pretty(VString(s), level)| == |s| + 2)
  {
    EscapedLength(s);
  }

  lemma {:induction false} IndentLength(level: nat)
    ensures |Indent(level)| == 2 * level
  {
    if level > 0 { IndentLength(level - 1); }
  }

  /** The room a member takes: its separator, its line, its name and its value. */
  function MemberRoom(m: Member, level: nat): nat {
    |m.name| + |Pretty(m.value, level)| + 6 + 2 * level
  }

  lemma MemberLength(ms: seq<Member>, i: nat, level: nat)
    requires i < |ms| && Unescaped(ms[i].name)
    ensures |PrettyMembers(ms, i, level)| <= MemberRoom(ms[i], level) + |PrettyMembers(ms, i + 1, level)|
  {
    hide Pretty, EscapeAll;
    IndentLength(level);
    EscapedLength(ms[i].name);
    assert |PrettyMember(ms[i], level)| == |ms[i].name| + 4 + |Pretty(ms[i].value, level)|;
  }

  /** Members of which all but one fit into the same room. */
  lemma {:induction false} MembersLength(ms: seq<Member>, i: nat, level: nat, big: nat, small: nat, large: nat)
    requires i <= |ms| && forall k | 0 <= k < |ms| :: Unescaped(ms[k].name)
    requires forall k | 0 <= k < |ms| :: MemberRoom(ms[k], level) <= if k == big then large else small
    ensures |PrettyMembers(ms, i, level)| <= (|ms| - i) * small + if i <= big then large else 0
    decreases |ms| - i
  {
    hide Unescaped, MemberRoom, PrettyMember, PrettyMembers;
    NoMembers(ms, level);
    if i < |ms| {
      MembersLength(ms, i + 1, level, big, small, large);
      MemberLength(ms, i, level);
      OneMore(|ms| - (i + 1), small);
    }
  }

  lemma NoMembers(ms: seq<Member>, level: nat)
    ensures PrettyMembers(ms, |ms|, level) == ""
  {
  }

  lemma OneMore(n: nat, room: nat)
    ensures (n + 1) * room == n * room + room
  {
  }

  lemma DictLength(names: seq<string>, values: seq<Value>, level: nat, big: nat, small: nat, large: nat)
    requires |names| == |values| > 0 && forall k | 0 <= k < |names| :: Unescaped(names[k])
    requires forall k | 0 <= k < |names| ::
               MemberRoom(Member(names[k], values[k]), level + 1) <= if k == big then large else small
    ensures |Pretty(VObject(Dict(names, values)), level)| <= |names| * small + large + 3 + 2 * level
  {
    hide PrettyMembers, MemberRoom, Unescaped;
    var ms := Dict(names, values);
    assert forall k | 0 <= k < |ms| :: ms[k] == Member(names[k], values[k]);
    MembersLength(ms, 0, level + 1, big, small, large);
    IndentLength(level);
  }

  // ----- bytes

  lemma {:induction false} AsciiLength(s: string)
    requires IsAscii(s)
    ensures ByteLength(s) == |s|
  {
    if s != "" { AsciiLength(s[1..]); }
  }

  lemma {:induction false} BytesTogether(s: string, t: string)
    ensures ByteLength(s + t) == ByteLength(s) + ByteLength(t)
  {
    if s == "" {
      assert s + t == t;
    } else {
      BytesTogether(s[1..], t);
      assert (s + t)[1..] == s[1..] + t;
    }
  }

  lemma {:induction false} BytesPerCharacter(s: string)
    ensures ByteLength(s) <= 4 * |s|
  {
    if s != "" { BytesPerCharacter(s[1..]); }
  }

  lemma PrettyBytes(v: Value)
    ensures ByteLength(Pretty(v, 0)) == |Pretty(v, 0)|
  {
    TreeHasTheText(v, 0);
    AsciiLength(Pretty(v, 0));
    hide Pretty;
  }

  lemma {:induction false} JoinLength(parts: seq<string>, sep: char, bound: nat)
    requires forall i | 0 <= i < |parts| :: |parts[i]| <= bound
    ensures |Join(parts, sep)| <= |parts| * (bound + 1)
  {
    if |parts| > 1 {
      JoinLength(parts[1..], sep, bound);
      assert |parts| * (bound + 1) == (bound + 1) + (|parts| - 1) * (bound + 1);
    }
  }

  lemma MarkerLength(head: string, fs: seq<string>, labels: seq<string>)
    requires |fs| == |labels| <= 5 && |head| <= 200
    requires (forall i | 0 <= i < |fs| :: |fs[i]| <= 128) && forall i | 0 <= i < |labels| :: |labels[i]| <= 20
    ensures |MarkerText(head, fs, labels)| <= 1206
  {
    var parts := [head] + Labelled(fs, labels);
    forall i | 0 <= i < |parts| ensures |parts[i]| <= 200 {
      if i > 0 { assert parts[i] == fs[i - 1] + labels[i - 1]; }
    }
    JoinLength(parts, '=', 200);
  }

  /** A frame around printed JSON. */
  lemma FrameBytes(marker: string, v: Value)
    requires |marker| <= 1206
    ensures ByteLength(Frame(marker, Pretty(v, 0))) <= |Pretty(v, 0)| + 5000
  {
    hide Pretty, ByteLength;
    var json := Pretty(v, 0);
    PrettyBytes(v);
    BytesPerCharacter(marker + "\n" + OPEN);
    BytesPerCharacter(CLOSE);
    BytesTogether(marker + "\n" + OPEN, json);
    BytesTogether(marker + "\n" + OPEN + json, CLOSE);
  }

  // ----- canonical JSON

  predicate VisibleBytes(bs: Bytes) {
    forall i | 0 <= i < |bs| :: 0x20 <= bs[i] <= 0x7E
  }

  lemma {:induction false} QuotedLength(s: Str)
    requires Visible(TextOf(s))
    ensures VisibleBytes(Escaped(s)) && |Escaped(s)| <= 2 * |s| && (Unescaped(TextOf(s)) ==> |Escaped(s)| == |s|)
  {
    if s != [] {
      assert forall i | 0 <= i < |s| :: TextOf(s)[i] as int == s[i];
      assert forall i | 0 <= i < |s[1..]| :: TextOf(s[1..])[i] == TextOf(s)[i + 1];
      QuotedLength(s[1..]);
      assert 0x20 <= s[0] <= 0x7E;
    }
  }

  /** A printed member of an object that takes little room. */
  predicate Fits(p: Keyed<Written>, room: nat) {
    && Unescaped(TextOf(p.key)) && p.value.Ok? && VisibleBytes(p.value.value)
    && |p.key| + |p.value.value| + 4 <= room
  }

  lemma {:induction false} FittingPiecesJoin(ps: seq<Keyed<Written>>, i: nat, room: nat)
    requires i <= |ps| && forall k | 0 <= k < |ps| :: Fits(ps[k], room)
    ensures JoinMembers(ps, i).Ok? && VisibleBytes(JoinMembers(ps, i).value)
    ensures |JoinMembers(ps, i).value| <= (|ps| - i) * room + 1
    decreases |ps| - i
  {
    hide Escaped, Unescaped, VisibleBytes, Fits;
    AllVisible();
    if i < |ps| {
      FittingPiecesJoin(ps, i + 1, room);
      MemberPrints(ps[i], i, room);
      var head, rest := JsonPrinter.Separator(i) + Quoted(ps[i].key) + [0x3A] + ps[i].value.value,
          JoinMembers(ps, i + 1).value;
      VisibleTogether(head, rest);
      assert JoinMembers(ps, i) == Ok(head + rest) by { assert Fits(ps[i], room); }
      OneMore(|ps| - (i + 1), room);
    }
  }

  lemma AllVisible()
    ensures VisibleBytes([0x7D])
  {
  }

  lemma VisibleTogether(bs: Bytes, cs: Bytes)
    requires VisibleBytes(bs) && VisibleBytes(cs)
    ensures VisibleBytes(bs + cs)
  {
  }

  lemma MemberPrints(p: Keyed<Written>, i: nat, room: nat)
    requires Fits(p, room)
    ensures p.value.Ok?
    ensures var t := JsonPrinter.Separator(i) + Quoted(p.key) + [0x3A] + p.value.value; VisibleBytes(t) && |t| <= room
  {
    QuotedLength(p.key);
    hide Escaped;
  }

  lemma ObjectPrints(ms: seq<Keyed<Json>>, room: nat)
    requires forall k | 0 <= k < |ms| :: Fits(Piece(ms[k]), room)
    ensures Jcs(Object(ms)).Ok? && VisibleBytes(Jcs(Object(ms)).value) && |Jcs(Object(ms)).value| <= |ms| * room + 2
  {
    hide Sort, Fits, Piece;
    var ps := Pieces(ms);
    SortSorts(ps);
    InBoth(Sort(ps), ps);
    forall k | 0 <= k < |ps| ensures Fits(ps[k], room) { assert ps[k] == Piece(ms[k]); }
    forall k | 0 <= k < |ps| ensures Fits(Sort(ps)[k], room) {
      var j :| 0 <= j < |ps| && ps[j] == Sort(ps)[k];
    }
    FittingPiecesJoin(Sort(ps), 0, room);
    hide JoinMembers;
  }

  lemma TextFits(name: string, s: string, room: nat)
    requires Unescaped(name) && Visible(s) && |name| + 6 + (if Unescaped(s) then |s| else 2 * |s|) <= room
    ensures Fits(Piece(Named(name, TextJson(s))), room)
  {
    TextOfScalars(name);
    TextOfScalars(s);
    QuotedLength(ScalarsOf(s));
    hide Escaped, Visible;
  }

  lemma OneIsShort()
    ensures JcsNumber(IntegerBytes(1)) == Ok(IntegerBytes(1)) && IntegerBytes(1) == [0x31]
  {
    IntegerRoundTrip(1);
    var t := DigitBytes(1);
    assert Decimal.Digits(1) == [1];
    assert |DigitsOf(t)| == |t| && DigitsOf(t)[0] == t[0] - 0x30;
  }

  lemma OneFits(name: string, room: nat)
    requires Unescaped(name) && |name| + 5 <= room
    ensures Fits(Piece(Named(name, NumberJson(1))), room)
  {
    hide IntegerBytes, JcsNumber, Visible;
    TextOfScalars(name);
    OneIsShort();
  }

  lemma NullFits(name: string, room: nat)
    requires Unescaped(name) && |name| + 8 <= room
    ensures Fits(Piece(Named(name, Null)), room)
  {
    TextOfScalars(name);
  }

  /** What prints as visible bytes has a canonical text. */
  lemma TextExists(v: Json) returns (s: string)
    requires Good(v, MAX_DEPTH) && Jcs(v).Ok? && VisibleBytes(Jcs(v).value)
    ensures CanonicalText(s, v) && Visible(s) && |s| == |Jcs(v).value|
  {
    hide Jcs, Good;
    var bs := Jcs(v).value;
    s := TextOf(bs);
    assert forall i | 0 <= i < |s| :: s[i] as int == bs[i];
    AsciiBytes(s);
    assert Codes(s) == bs;
    hide BytesOf;
  }
}
